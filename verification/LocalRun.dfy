/** The experiment loop around the local evolver: no program is tried twice, every program
    descends from a seed, and which ones have lost their evolve block. */
module LocalRun {
  import opened Wrappers
  import opened Vectors
  import opened Executors
  import opened Ledger
  import opened Ranking
  import opened Experiments
  import opened LocalEvolver
  import Text
  import Backtest
  import Properties = EvolverProperties
  import Counts = ExperimentProperties

  function WithLocalEvolver(e: Evolver, x: Experiment): Experiment {
    Experiment(x.config, e.Proposed, x.backtest, x.score, e.sha256)
  }

  // ----- one batch, seen from the loop

  ghost predicate DistinctHashes(trials: seq<CandidateTrial>) {
    forall i, j :: 0 <= i < j < |trials| ==>
      trials[i].proposal.program.sha256 != trials[j].proposal.program.sha256
  }

  ghost predicate AllValidated(e: Evolver, trials: seq<CandidateTrial>) {
    forall i :: 0 <= i < |trials| ==> e.validate(trials[i].proposal.program)
  }

  function ProgramsOf(trials: seq<CandidateTrial>): seq<CandidateProgram> {
    seq(|trials|, i requires 0 <= i < |trials| => trials[i].proposal.program)
  }

  function ParentPrograms(parents: seq<ParentCandidate>): seq<CandidateProgram> {
    seq(|parents|, i requires 0 <= i < |parents| => parents[i].program)
  }

  /** Number formats read back, and number tokens stand where the lexer records them. */
  ghost predicate Assumed(e: Evolver) {
    Properties.FormatsSound(e) && Properties.LexerSound(e)
  }

  ghost predicate MutantOf(e: Evolver, parent: CandidateProgram, program: CandidateProgram) {
    exists draws: nat -> nat, at: nat ::
      e.Mutated(parent, draws, at).0.Some? && e.Mutated(parent, draws, at).0.value.program == program
  }

  /** A mutant of one of these programs. */
  ghost predicate Descends(e: Evolver, pool: seq<CandidateProgram>, program: CandidateProgram) {
    exists k :: 0 <= k < |pool| && MutantOf(e, pool[k], program)
  }

  /** A mutant of one whose block does not survive being written back. */
  ghost predicate Orphaned(e: Evolver, pool: seq<CandidateProgram>, program: CandidateProgram) {
    exists k :: 0 <= k < |pool| && MutantOf(e, pool[k], program) && !Properties.BlockSurvives(e, pool[k].source)
  }

  lemma MutantHasBlockExactlyWhen(e: Evolver, parent: CandidateProgram, program: CandidateProgram)
    requires Assumed(e) && MutantOf(e, parent, program)
    ensures EvolveBlock(program.source).Some? <==> Properties.BlockSurvives(e, parent.source)
  {
    hide EvolveBlock, Properties.FormatsSound, Properties.ReadsFaithfully, Properties.BlockSurvives, Evolver.Mutated;
    var draws: nat -> nat, at: nat :|
      e.Mutated(parent, draws, at).0.Some? && e.Mutated(parent, draws, at).0.value.program == program;
    assert Properties.ReadsFaithfully(e, parent.source);
    Properties.MutationKeepsBlock(e, parent, draws, at);
  }

  /** Of seeds that have their block and their descendants, the ones without a block are the
      orphaned ones. */
  lemma OrphanedExactlyWhen(e: Evolver, seeds: seq<CandidateProgram>, pool: seq<CandidateProgram>, program: CandidateProgram)
    requires Assumed(e) && e.AllHaveBlocks(seeds)
    requires program in seeds || Descends(e, pool, program)
    ensures EvolveBlock(program.source).None? <==> Orphaned(e, pool, program)
  {
    hide EvolveBlock, Assumed, MutantOf, Properties.BlockSurvives;
    forall k | 0 <= k < |pool| && MutantOf(e, pool[k], program)
      ensures EvolveBlock(program.source).Some? <==> Properties.BlockSurvives(e, pool[k].source)
    {
      MutantHasBlockExactlyWhen(e, pool[k], program);
    }
  }

  ghost predicate GoodBatch(e: Evolver, request: ProposalRequest, proposals: seq<Proposal>) {
    && |proposals| == request.batchSize
    && (forall i :: 0 <= i < |proposals| ==> e.validate(proposals[i].program))
    && (forall i :: 0 <= i < |proposals| ==> proposals[i].program.sha256 !in request.seen)
    && (forall i, j :: 0 <= i < j < |proposals| ==>
          proposals[i].program.sha256 != proposals[j].program.sha256)
  }

  lemma BatchIsGood(e: Evolver, request: ProposalRequest)
    requires e.Proposed(request).Success?
    ensures GoodBatch(e, request, e.Proposed(request).value)
  {
    hide Evolver.SearchOutcome, Properties.FromSeed, Properties.FromParent;
    Properties.BatchIsFresh(e, request);
  }

  ghost predicate NewDescend(e: Evolver, seeds: seq<CandidateProgram>, pool: seq<CandidateProgram>,
                             programs: seq<CandidateProgram>) {
    forall i :: 0 <= i < |programs| ==> programs[i] in seeds || Descends(e, pool, programs[i])
  }

  lemma BatchDescends(e: Evolver, request: ProposalRequest, pool: seq<CandidateProgram>)
    requires e.Proposed(request).Success?
    requires forall parent :: parent in e.Parents(request) ==> parent in pool
    ensures NewDescend(e, request.seedPrograms, pool, Programs(e.Proposed(request).value))
  {
    hide Evolver.SearchOutcome, Properties.FromSeed, Properties.FromParent, Evolver.Parents, Descends;
    Properties.BatchIsFresh(e, request);
    var proposals := e.Proposed(request).value;
    forall i | 0 <= i < |proposals|
      ensures proposals[i].program in request.seedPrograms || Descends(e, pool, proposals[i].program)
    {
      ProposalDescends(e, request, pool, proposals[i]);
    }
  }

  lemma ProposalDescends(e: Evolver, request: ProposalRequest, pool: seq<CandidateProgram>, p: Proposal)
    requires Properties.FromSeed(request, p) || Properties.FromParent(e, request, p)
    requires forall parent :: parent in e.Parents(request) ==> parent in pool
    ensures p.program in request.seedPrograms || Descends(e, pool, p.program)
  {
    hide Evolver.Mutated, Evolver.Parents;
    if Properties.FromParent(e, request, p) {
      var parent, at :|
        && parent in e.Parents(request)
        && e.Mutated(parent, e.stream(request.seed), at).0.Some?
        && Properties.Attributed(parent, e.Mutated(parent, e.stream(request.seed), at).0.value, p);
      assert MutantOf(e, parent, p.program);
      var k :| 0 <= k < |pool| && pool[k] == parent;
    }
  }

  lemma LargerPool(e: Evolver, pool: seq<CandidateProgram>, larger: seq<CandidateProgram>, program: CandidateProgram)
    requires pool <= larger && Descends(e, pool, program)
    ensures Descends(e, larger, program)
  {
    hide MutantOf;
    var k :| 0 <= k < |pool| && MutantOf(e, pool[k], program);
    assert larger[k] == pool[k];
  }

  // ----- the whole run

  /** The seeds and everything tried so far. */
  function Pool(seeds: seq<CandidateProgram>, s: RunState): seq<CandidateProgram> {
    seeds + ProgramsOf(s.trials)
  }

  /** Every program is a seed, or a mutant of a seed or of an earlier program; so following
      the parents back always ends at a seed. */
  ghost predicate AllDescend(e: Evolver, seeds: seq<CandidateProgram>, programs: seq<CandidateProgram>) {
    forall i :: 0 <= i < |programs| ==> programs[i] in seeds || Descends(e, seeds + programs[..i], programs[i])
  }

  /** Every trial evaluated so far was validated, no two have one hash, every trial descends
      from a seed through earlier trials, and every parent has been tried. */
  ghost predicate SoundRun(e: Evolver, seeds: seq<CandidateProgram>, s: RunState) {
    && s.Aligned()
    && DistinctHashes(s.trials)
    && AllValidated(e, s.trials)
    && AllDescend(e, seeds, ProgramsOf(s.trials))
    && (forall i :: 0 <= i < |s.parents| ==> s.parents[i].program in ProgramsOf(s.trials))
  }

  lemma ParentsInPool(e: Evolver, x: Experiment, seeds: seq<CandidateProgram>, s: RunState, g: nat)
    requires SoundRun(e, seeds, s)
    ensures forall parent :: parent in e.Parents(x.Request(seeds, s, g)) ==> parent in Pool(seeds, s)
  {
    hide AllDescend;
  }

  lemma SelectedWereTried(x: Experiment, s: RunState)
    requires s.Aligned()
    ensures var parents := x.SelectParents(s);
            forall i :: 0 <= i < |parents| ==> parents[i].program in ProgramsOf(s.trials)
  {
    hide Ranked;
    var ranked := Ranked(s.Outcomes(), StandingOf);
    RankedKeeps(s.Outcomes(), StandingOf);
    forall i | 0 <= i < |x.SelectParents(s)|
      ensures x.SelectParents(s)[i].program in ProgramsOf(s.trials)
    {
      SharedMember(ranked, s.Outcomes(), ranked[i]);
      var k :| 0 <= k < |s.Outcomes()| && s.Outcomes()[k] == ranked[i];
      assert ProgramsOf(s.trials)[k] == x.SelectParents(s)[i].program;
    }
  }

  lemma HashesHold(trials: seq<CandidateTrial>, i: nat)
    requires i < |trials|
    ensures trials[i].proposal.program.sha256 in Hashes(trials)
  {
  }

  lemma EvaluatedIsSound(e: Evolver, x: Experiment, seeds: seq<CandidateProgram>, s: RunState, g: nat)
    requires SoundRun(e, seeds, s)
    requires WithLocalEvolver(e, x).Evaluated(seeds, s, g).Success?
    ensures var next := WithLocalEvolver(e, x).Evaluated(seeds, s, g).value;
            && DistinctHashes(next.trials) && AllValidated(e, next.trials)
            && AllDescend(e, seeds, ProgramsOf(next.trials))
  {
    hide Evolver.Proposed, CandidateId, Evolver.Parents, AllDescend, NewDescend;
    var request := x.Request(seeds, s, g);
    var proposals := e.Proposed(request).value;
    ParentsInPool(e, x, seeds, s, g);
    BatchIsGood(e, request);
    BatchDescends(e, request, Pool(seeds, s));
    TrialsJoin(e, x, s, g, request, proposals);
    DescentJoins(e, x, seeds, s, g, proposals);
  }

  lemma TrialsJoin(e: Evolver, x: Experiment, s: RunState, g: nat, request: ProposalRequest, proposals: seq<Proposal>)
    requires DistinctHashes(s.trials) && AllValidated(e, s.trials) && request.seen == Hashes(s.trials)
    requires GoodBatch(e, request, proposals)
    ensures var trials := s.trials + x.NewTrials(g, |s.trials|, proposals);
            DistinctHashes(trials) && AllValidated(e, trials)
  {
    hide CandidateId, Hashes;
    var trials := s.trials + x.NewTrials(g, |s.trials|, proposals);
    assert forall k :: |s.trials| <= k < |trials| ==> trials[k].proposal == proposals[k - |s.trials|];
    forall i, j | 0 <= i < j < |trials|
      ensures trials[i].proposal.program.sha256 != trials[j].proposal.program.sha256
    {
      if i < |s.trials| <= j {
        HashesHold(s.trials, i);
      }
    }
  }

  lemma DescentJoins(e: Evolver, x: Experiment, seeds: seq<CandidateProgram>, s: RunState, g: nat, proposals: seq<Proposal>)
    requires AllDescend(e, seeds, ProgramsOf(s.trials))
    requires NewDescend(e, seeds, Pool(seeds, s), Programs(proposals))
    ensures var trials := s.trials + x.NewTrials(g, |s.trials|, proposals);
            AllDescend(e, seeds, ProgramsOf(trials))
  {
    hide CandidateId, Descends;
    var trials := s.trials + x.NewTrials(g, |s.trials|, proposals);
    var before, programs := ProgramsOf(s.trials), ProgramsOf(trials);
    assert programs == before + Programs(proposals);
    forall i | 0 <= i < |programs|
      ensures programs[i] in seeds || Descends(e, seeds + programs[..i], programs[i])
    {
      if i < |before| {
        assert programs[i] == before[i] && programs[..i] == before[..i];
      } else if programs[i] !in seeds {
        assert programs[i] == Programs(proposals)[i - |before|] && before == programs[..i][..|before|];
        LargerPool(e, Pool(seeds, s), seeds + programs[..i], programs[i]);
      }
    }
  }

  lemma DescendsInPool(e: Evolver, seeds: seq<CandidateProgram>, programs: seq<CandidateProgram>, i: nat)
    requires AllDescend(e, seeds, programs) && i < |programs| && programs[i] !in seeds
    ensures Descends(e, seeds + programs, programs[i])
  {
    hide Descends;
    assert seeds + programs[..i] <= seeds + programs;
    LargerPool(e, seeds + programs[..i], seeds + programs, programs[i]);
  }

  lemma GenerationIsSound(e: Evolver, x: Experiment, seeds: seq<CandidateProgram>,
                          taken: set<Key>, s: RunState, g: nat)
    requires SoundRun(e, seeds, s)
    ensures SoundRun(e, seeds, WithLocalEvolver(e, x).Generation(seeds, taken, s, g).state)
  {
    hide Experiment.Evaluated, Experiment.Audited, Experiment.SelectParents;
    hide DistinctHashes, AllValidated, AllDescend, ProgramsOf;
    var local := WithLocalEvolver(e, x);
    if local.Evaluated(seeds, s, g).Success? {
      EvaluatedIsSound(e, x, seeds, s, g);
      SelectedWereTried(local, local.Evaluated(seeds, s, g).value);
    }
  }

  lemma StartIsSound(e: Evolver, seeds: seq<CandidateProgram>)
    ensures SoundRun(e, seeds, START)
  {
  }

  /** Over a whole run, however it ends, all trials are validated, have distinct hashes and
      descend from the seeds through earlier trials; so, once every seed has an evolve block,
      the trials without one are exactly the mutants of a program whose block does not survive
      being written back. */
  lemma SoundThroughout(e: Evolver, x: Experiment, seeds: seq<CandidateProgram>, taken: set<Key>, g: nat)
    requires Assumed(e) && e.AllHaveBlocks(seeds)
    ensures var s := WithLocalEvolver(e, x).Reach(seeds, taken, g).state;
            && SoundRun(e, seeds, s)
            && forall i :: 0 <= i < |s.trials| ==>
                 var program := s.trials[i].proposal.program;
                 EvolveBlock(program.source).None? <==> Orphaned(e, Pool(seeds, s), program)
  {
    hide Assumed, EvolveBlock, Descends, Orphaned;
    ReachIsSound(e, x, seeds, taken, g);
    var s := WithLocalEvolver(e, x).Reach(seeds, taken, g).state;
    forall i | 0 <= i < |s.trials|
      ensures var program := s.trials[i].proposal.program;
              EvolveBlock(program.source).None? <==> Orphaned(e, Pool(seeds, s), program)
    {
      var program := s.trials[i].proposal.program;
      assert ProgramsOf(s.trials)[i] == program;
      if program !in seeds {
        DescendsInPool(e, seeds, ProgramsOf(s.trials), i);
      }
      OrphanedExactlyWhen(e, seeds, Pool(seeds, s), program);
    }
  }

  lemma {:induction false} ReachIsSound(e: Evolver, x: Experiment, seeds: seq<CandidateProgram>, taken: set<Key>, g: nat)
    ensures SoundRun(e, seeds, WithLocalEvolver(e, x).Reach(seeds, taken, g).state)
  {
    hide SoundRun, Experiment.Generation;
    if g == 0 {
      StartIsSound(e, seeds);
    } else {
      ReachIsSound(e, x, seeds, taken, g - 1);
      GenerationIsSound(e, x, seeds, taken, WithLocalEvolver(e, x).Reach(seeds, taken, g - 1).state, g - 1);
    }
  }

  // ----- the only ways the evolver can end a run

  const MISSING_BLOCK := EvolverFailed(NoEvolveBlock)

  /** The evolver ends a run only by an invalid seed, by an integer too large for a float,
      by running out of attempts or over a missing block, never by a wrong batch size. */
  predicate MayEndRun(error: ExperimentError) {
    && error != WrongProposalCount
    && (error.EvolverFailed? ==>
          error == MISSING_BLOCK || error.error.InvalidSeed? || error.error.LiteralOverflow? || error.error.Exhausted?)
  }

  lemma ProposeFailures(e: Evolver, request: ProposalRequest)
    requires 1 <= request.batchSize && request.seedPrograms != []
    requires e.Proposed(request).Failure?
    ensures MayEndRun(EvolverFailed(e.Proposed(request).error))
    ensures e.Proposed(request).error == NoEvolveBlock ==> !e.AllHaveBlocks(e.Parents(request))
  {
    hide Evolver.Searched, Evolver.AllHaveBlocks, Evolver.WithSeeds, Evolver.Parents;
  }

  lemma MissingBlockFails(e: Evolver, request: ProposalRequest)
    requires 1 <= request.batchSize && request.seedPrograms != [] && request.generation != 0
    requires !e.AllHaveBlocks(e.Parents(request))
    ensures e.Proposed(request) == Failure(NoEvolveBlock)
  {
    hide Evolver.Searched, Evolver.AllHaveBlocks, Evolver.Parents;
  }

  lemma EvaluatedFailures(e: Evolver, x: Experiment, seeds: seq<CandidateProgram>, s: RunState, g: nat)
    requires seeds != [] && 0 < x.config.batchSize
    requires s.Aligned() && |s.trials| < x.config.evaluationBudget
    requires WithLocalEvolver(e, x).Evaluated(seeds, s, g).Failure?
    ensures MayEndRun(WithLocalEvolver(e, x).Evaluated(seeds, s, g).error)
    ensures WithLocalEvolver(e, x).Evaluated(seeds, s, g).error == MISSING_BLOCK ==>
              !e.AllHaveBlocks(e.Parents(x.Request(seeds, s, g)))
  {
    hide Evolver.Proposed, Evolver.AllHaveBlocks, Evolver.Parents;
    var request := x.Request(seeds, s, g);
    if e.Proposed(request).Failure? {
      ProposeFailures(e, request);
    } else {
      BatchIsGood(e, request);
    }
  }

  lemma GenerationFailures(e: Evolver, x: Experiment, seeds: seq<CandidateProgram>,
                           taken: set<Key>, s: RunState, g: nat)
    requires seeds != [] && 0 < x.config.batchSize
    requires s.Aligned() && |s.trials| < x.config.evaluationBudget
    ensures var error := WithLocalEvolver(e, x).Generation(seeds, taken, s, g).error;
            && (error.Some? ==> MayEndRun(error.value))
            && (error == Some(MISSING_BLOCK) ==> !e.AllHaveBlocks(e.Parents(x.Request(seeds, s, g))))
  {
    hide Experiment.Evaluated, Experiment.Audited, Experiment.SelectParents, KeysOf;
    hide Experiment.NewRecords, Evolver.AllHaveBlocks, Evolver.Parents;
    var local := WithLocalEvolver(e, x);
    if local.Evaluated(seeds, s, g).Failure? {
      EvaluatedFailures(e, x, seeds, s, g);
    } else {
      var next := local.Evaluated(seeds, s, g).value;
      Counts.AuditedIsPrefix(local, taken, s.records,
        local.NewRecords(next.trials, next.evaluations, next.scores, |s.trials|));
    }
  }

  /** Some parent of the next generation is orphaned. */
  ghost predicate HasOrphan(e: Evolver, seeds: seq<CandidateProgram>, s: RunState) {
    exists i :: 0 <= i < |s.parents| && Orphaned(e, Pool(seeds, s), s.parents[i].program)
  }

  /** In any round g the run ends over a missing evolve block if and only if some parent the
      round starts from is orphaned, a mutant of a program whose block does not survive being
      written back. */
  lemma MissingBlockExactlyWhen(e: Evolver, x: Experiment, seeds: seq<CandidateProgram>, taken: set<Key>, g: nat)
    requires Assumed(e) && seeds != [] && e.AllHaveBlocks(seeds) && 0 < x.config.batchSize
    requires var before := WithLocalEvolver(e, x).Reach(seeds, taken, g);
             before.error.None? && |before.state.trials| < x.config.evaluationBudget
    ensures WithLocalEvolver(e, x).Reach(seeds, taken, g + 1).error == Some(MISSING_BLOCK) <==>
              HasOrphan(e, seeds, WithLocalEvolver(e, x).Reach(seeds, taken, g).state)
  {
    hide Assumed, EvolveBlock, Orphaned, AllDescend, Experiment.Generation, Evolver.Proposed, Evolver.Parents;
    hide Evolver.AllHaveBlocks;
    var s := WithLocalEvolver(e, x).Reach(seeds, taken, g).state;
    SoundThroughout(e, x, seeds, taken, g);
    GenerationFailures(e, x, seeds, taken, s, g);
    BlocksOfParents(e, x, seeds, s, g);
    if HasOrphan(e, seeds, s) {
      LaterRound(e, x, seeds, taken, g);
      MissingBlockFails(e, x.Request(seeds, s, g));
      MissingBlockEnds(e, x, seeds, taken, s, g);
    }
  }

  lemma MissingBlockEnds(e: Evolver, x: Experiment, seeds: seq<CandidateProgram>, taken: set<Key>, s: RunState, g: nat)
    requires s.Aligned() && e.Proposed(x.Request(seeds, s, g)) == Failure(NoEvolveBlock)
    ensures WithLocalEvolver(e, x).Generation(seeds, taken, s, g) == Progress(s, Some(MISSING_BLOCK))
  {
    hide Evolver.Proposed;
  }

  /** Before the first round there are no parents. */
  lemma LaterRound(e: Evolver, x: Experiment, seeds: seq<CandidateProgram>, taken: set<Key>, g: nat)
    requires HasOrphan(e, seeds, WithLocalEvolver(e, x).Reach(seeds, taken, g).state)
    ensures g != 0
  {
    hide Orphaned;
  }

  lemma BlocksOfParents(e: Evolver, x: Experiment, seeds: seq<CandidateProgram>, s: RunState, g: nat)
    requires SoundRun(e, seeds, s) && e.AllHaveBlocks(seeds)
    requires forall i :: 0 <= i < |s.trials| ==>
               var program := s.trials[i].proposal.program;
               EvolveBlock(program.source).None? <==> Orphaned(e, Pool(seeds, s), program)
    ensures e.AllHaveBlocks(e.Parents(x.Request(seeds, s, g))) <==> !HasOrphan(e, seeds, s)
  {
    hide EvolveBlock, Orphaned, AllDescend, DistinctHashes, AllValidated, Pool;
    forall i | 0 <= i < |s.parents|
      ensures EvolveBlock(s.parents[i].program.source).None? <==> Orphaned(e, Pool(seeds, s), s.parents[i].program)
    {
      var k :| 0 <= k < |s.trials| && ProgramsOf(s.trials)[k] == s.parents[i].program;
    }
    var parents := e.Parents(x.Request(seeds, s, g));
    if s.parents == [] {
      assert parents == seeds;
    } else {
      assert parents == ParentPrograms(s.parents);
      assert forall i :: 0 <= i < |s.parents| ==> parents[i] == s.parents[i].program;
    }
  }

  /** A run whose seeds all have one ordered evolve block is never ended by a batch of the
      wrong size, and over a missing block only with an orphaned parent; so never, in any
      generation, if every block survives being written back. */
  lemma {:induction false} OnlyTheseFailures(e: Evolver, x: Experiment, seeds: seq<CandidateProgram>,
                                             taken: set<Key>, g: nat)
    requires Assumed(e) && seeds != [] && e.AllHaveBlocks(seeds) && 0 < x.config.batchSize
    ensures var run := WithLocalEvolver(e, x).Reach(seeds, taken, g);
            && (run.error.Some? ==> MayEndRun(run.error.value))
            && (run.error == Some(MISSING_BLOCK) ==> HasOrphan(e, seeds, run.state))
            && (Properties.AllSurvive(e, Pool(seeds, run.state)) ==> run.error != Some(MISSING_BLOCK))
  {
    hide SoundRun, Assumed, Experiment.Generation, MayEndRun, Evolver.AllHaveBlocks, HasOrphan, Properties.AllSurvive;
    if g != 0 {
      var before := WithLocalEvolver(e, x).Reach(seeds, taken, g - 1);
      OnlyTheseFailures(e, x, seeds, taken, g - 1);
      ReachIsSound(e, x, seeds, taken, g - 1);
      if before.error.None? && |before.state.trials| < x.config.evaluationBudget {
        StateIsAligned(e, seeds, before.state);
        GenerationFailures(e, x, seeds, taken, before.state, g - 1);
        MissingBlockExactlyWhen(e, x, seeds, taken, g - 1);
        MissingBlockKeepsState(e, x, seeds, taken, before.state, g - 1);
      }
    }
    var s := WithLocalEvolver(e, x).Reach(seeds, taken, g).state;
    if Properties.AllSurvive(e, Pool(seeds, s)) {
      SurvivorsHaveNoOrphan(e, seeds, s);
    }
  }

  lemma StateIsAligned(e: Evolver, seeds: seq<CandidateProgram>, s: RunState)
    requires SoundRun(e, seeds, s)
    ensures s.Aligned()
  {
  }

  lemma MissingBlockKeepsState(e: Evolver, x: Experiment, seeds: seq<CandidateProgram>, taken: set<Key>, s: RunState, g: nat)
    requires s.Aligned()
    ensures var run := WithLocalEvolver(e, x).Generation(seeds, taken, s, g);
            run.error == Some(MISSING_BLOCK) ==> run.state == s
  {
    hide Experiment.Evaluated, Experiment.Audited, Experiment.SelectParents, KeysOf, Experiment.NewRecords;
    var local := WithLocalEvolver(e, x);
    if local.Evaluated(seeds, s, g).Success? {
      var next := local.Evaluated(seeds, s, g).value;
      Counts.AuditedIsPrefix(local, taken, s.records,
        local.NewRecords(next.trials, next.evaluations, next.scores, |s.trials|));
    }
  }

  lemma SurvivorsHaveNoOrphan(e: Evolver, seeds: seq<CandidateProgram>, s: RunState)
    requires Properties.AllSurvive(e, Pool(seeds, s))
    ensures !HasOrphan(e, seeds, s)
  {
    hide MutantOf, Properties.BlockSurvives;
  }

  // ----- runs that never miss a block, seen from the seeds

  predicate AllIn(sources: string -> bool, programs: seq<CandidateProgram>) {
    forall i :: 0 <= i < |programs| ==> sources(programs[i].source)
  }

  /** A class of sources that validated mutants stay in. */
  ghost predicate Closed(e: Evolver, sources: string -> bool) {
    forall parent: CandidateProgram, program: CandidateProgram ::
      sources(parent.source) && MutantOf(e, parent, program) && e.validate(program) ==> sources(program.source)
  }

  /** Whatever descends from seeds of the class is of the class. */
  lemma {:induction false} DescendantInClass(e: Evolver, sources: string -> bool, seeds: seq<CandidateProgram>,
                                             programs: seq<CandidateProgram>, i: nat)
    requires Closed(e, sources) && AllIn(sources, seeds) && AllDescend(e, seeds, programs) && i < |programs|
    requires forall k :: 0 <= k <= i ==> e.validate(programs[k])
    ensures sources(programs[i].source)
    decreases i
  {
    hide MutantOf;
    if programs[i] in seeds {
      var k :| 0 <= k < |seeds| && seeds[k] == programs[i];
    } else {
      var pool := seeds + programs[..i];
      var k :| 0 <= k < |pool| && MutantOf(e, pool[k], programs[i]);
      if |seeds| <= k {
        DescendantInClass(e, sources, seeds, programs, k - |seeds|);
        assert pool[k] == programs[k - |seeds|];
      }
    }
  }

  lemma TrialsInClass(e: Evolver, sources: string -> bool, seeds: seq<CandidateProgram>, s: RunState)
    requires Closed(e, sources) && AllIn(sources, seeds) && SoundRun(e, seeds, s)
    ensures AllIn(sources, Pool(seeds, s))
  {
    hide Closed, AllDescend;
    var programs := ProgramsOf(s.trials);
    assert forall k :: 0 <= k < |programs| ==> e.validate(programs[k]);
    forall i | 0 <= i < |programs|
      ensures sources(programs[i].source)
    {
      DescendantInClass(e, sources, seeds, programs, i);
    }
  }

  /** If the seeds are of a class that validated mutants stay in and whose blocks survive being
      written back, and have their block, then in every generation of every run so has every
      trial, and the parent check never fails. */
  lemma ClassNeverMissesBlock(e: Evolver, x: Experiment, sources: string -> bool, seeds: seq<CandidateProgram>,
                              taken: set<Key>, g: nat)
    requires Assumed(e) && seeds != [] && e.AllHaveBlocks(seeds) && 0 < x.config.batchSize
    requires Closed(e, sources) && (forall source :: sources(source) ==> Properties.BlockSurvives(e, source))
    requires AllIn(sources, seeds)
    ensures var run := WithLocalEvolver(e, x).Reach(seeds, taken, g);
            run.error != Some(MISSING_BLOCK) && e.AllHaveBlocks(ProgramsOf(run.state.trials))
  {
    hide SoundRun, Assumed, Closed, MayEndRun, HasOrphan, Properties.BlockSurvives, Orphaned, EvolveBlock;
    var s := WithLocalEvolver(e, x).Reach(seeds, taken, g).state;
    ReachIsSound(e, x, seeds, taken, g);
    TrialsInClass(e, sources, seeds, s);
    OnlyTheseFailures(e, x, seeds, taken, g);
    SoundThroughout(e, x, seeds, taken, g);
    NoneOrphaned(e, seeds, s);
  }

  lemma NoneOrphaned(e: Evolver, seeds: seq<CandidateProgram>, s: RunState)
    requires Properties.AllSurvive(e, Pool(seeds, s))
    ensures forall program :: !Orphaned(e, Pool(seeds, s), program)
  {
    hide MutantOf, Properties.BlockSurvives;
  }

  /** What untokenize makes of newline-only text is newline-only, with a block if the text had
      one. */
  ghost predicate KeepsNewlineSources(e: Evolver) {
    forall source: string :: Text.OnlyNewlineBreaks(source) ==>
      NewlinesKept(e, source) && Properties.BlockSurvives(e, source)
  }

  predicate NewlinesKept(e: Evolver, source: string) {
    e.tokenize(source).Some? && Untokenize(e.tokenize(source).value).Some? ==>
      Text.OnlyNewlineBreaks(Untokenize(e.tokenize(source).value).value)
  }

  /** Which holds in particular if every token is placed so that newline-only sources are
      written back as they are. */
  lemma UnchangedKeepsNewlineSources(e: Evolver)
    requires forall source: string :: Text.OnlyNewlineBreaks(source) ==> Properties.WrittenBack(e, source)
    ensures KeepsNewlineSources(e)
  {
    hide Text.OnlyNewlineBreaks, EvolveBlock, Untokenize;
  }

  lemma NewlineMutant(e: Evolver, parent: CandidateProgram, program: CandidateProgram)
    requires Assumed(e) && KeepsNewlineSources(e)
    requires Text.OnlyNewlineBreaks(parent.source) && MutantOf(e, parent, program)
    ensures Text.OnlyNewlineBreaks(program.source)
  {
    hide EvolveBlock, Properties.FormatsSound, Properties.ReadsFaithfully, Evolver.Mutated, Untokenize, TextBefore;
    hide Properties.BlockSurvives, Properties.StandsAt, Properties.Chosen, Text.IsBreak, Text.HasDigit;
    var draws: nat -> nat, at: nat :|
      e.Mutated(parent, draws, at).0.Some? && e.Mutated(parent, draws, at).0.value.program == program;
    assert Properties.ReadsFaithfully(e, parent.source);
    var pre, post := Properties.MutationIsLocal(e, parent, draws, at);
    var m := e.Mutated(parent, draws, at).0.value;
    Properties.MutatedToken(e, parent, draws, at);
    assert NewlinesKept(e, parent.source);
    NewlineSpan(pre, m.before, m.after, post);
  }

  lemma NewlineSpan(pre: string, was: string, span: string, post: string)
    requires Text.OnlyNewlineBreaks(pre + was + post) && Text.Unbroken(span)
    ensures Text.OnlyNewlineBreaks(pre + span + post)
  {
    hide Text.IsBreak;
    var written, child := pre + was + post, pre + span + post;
    assert forall i :: |pre| <= i < |pre| + |span| ==> child[i] == span[i - |pre|];
    assert forall i :: 0 <= i < |pre| ==> child[i] == written[i];
    assert forall i :: |pre| + |span| <= i < |child| ==> child[i] == written[i - |span| + |was|];
  }

  /** Seeds whose only line breaks are newlines and that have one ordered block: no run from
      them ever ends over a missing block, in any generation. */
  lemma NewlineSeedsNeverMissBlock(e: Evolver, x: Experiment, seeds: seq<CandidateProgram>, taken: set<Key>, g: nat)
    requires Assumed(e) && KeepsNewlineSources(e)
    requires seeds != [] && e.AllHaveBlocks(seeds) && 0 < x.config.batchSize
    requires AllIn(Text.OnlyNewlineBreaks, seeds)
    ensures var run := WithLocalEvolver(e, x).Reach(seeds, taken, g);
            run.error != Some(MISSING_BLOCK) && e.AllHaveBlocks(ProgramsOf(run.state.trials))
  {
    hide Assumed, KeepsNewlineSources, MutantOf, EvolveBlock, Text.OnlyNewlineBreaks, Properties.BlockSurvives;
    forall parent: CandidateProgram, program: CandidateProgram
      | Text.OnlyNewlineBreaks(parent.source) && MutantOf(e, parent, program)
      ensures Text.OnlyNewlineBreaks(program.source)
    {
      NewlineMutant(e, parent, program);
    }
    NewlineSurvives(e);
    ClassNeverMissesBlock(e, x, Text.OnlyNewlineBreaks, seeds, taken, g);
  }

  lemma NewlineSurvives(e: Evolver)
    requires KeepsNewlineSources(e)
    ensures forall source :: Text.OnlyNewlineBreaks(source) ==> Properties.BlockSurvives(e, source)
  {
    hide Text.OnlyNewlineBreaks, Properties.BlockSurvives;
  }

  /** What untokenize wrote for a validated mutant is written back unchanged. */
  ghost predicate Settles(e: Evolver) {
    forall parent: CandidateProgram, program: CandidateProgram ::
      MutantOf(e, parent, program) && e.validate(program) ==> Properties.WrittenBack(e, program.source)
  }

  lemma WrittenBackSurvives(e: Evolver, source: string)
    requires Properties.WrittenBack(e, source)
    ensures Properties.BlockSurvives(e, source)
  {
    hide EvolveBlock, Untokenize;
  }

  /** Seeds with one ordered block that survives being written back, whatever tabs, form feeds
      or other gaps they hold: no run from them ever ends over a missing block. Only the seeds
      need to be looked at. */
  lemma SurvivingSeedsNeverMissBlock(e: Evolver, x: Experiment, seeds: seq<CandidateProgram>, taken: set<Key>, g: nat)
    requires Assumed(e) && Settles(e)
    requires seeds != [] && e.AllHaveBlocks(seeds) && 0 < x.config.batchSize
    requires Properties.AllSurvive(e, seeds)
    ensures var run := WithLocalEvolver(e, x).Reach(seeds, taken, g);
            run.error != Some(MISSING_BLOCK) && e.AllHaveBlocks(ProgramsOf(run.state.trials))
  {
    hide Assumed, MutantOf, EvolveBlock, Properties.BlockSurvives, Properties.WrittenBack;
    var survivors: string -> bool := source => Properties.BlockSurvives(e, source);
    forall parent: CandidateProgram, program: CandidateProgram | MutantOf(e, parent, program) && e.validate(program)
      ensures survivors(program.source)
    {
      WrittenBackSurvives(e, program.source);
    }
    ClassNeverMissesBlock(e, x, survivors, seeds, taken, g);
  }

  // ----- when a mutation's own description ends the run

  /** What a well-behaved evaluator and scorer report about one candidate. */
  predicate Reported(evaluation: Backtest.ProgramEvaluation, score: HonestScore) {
    && (forall i :: 0 <= i < |evaluation.sandboxResults| ==> 0.0 <= evaluation.sandboxResults[i].duration)
    && 0.0 <= score.validity <= 1.0
    && 1.0 <= score.trialCount
    && MetricsAgree(score.metrics, score.reward, Truncated(score.trialCount))
  }

  predicate Digested(e: Evolver, program: CandidateProgram) {
    && 1 <= |program.source| <= MAX_SOURCE
    && e.sha256(program.source) == program.sha256
    && IsDigest(program.sha256)
  }

  lemma DurationsAreNonNegative(results: seq<SandboxResult>)
    requires forall i :: 0 <= i < |results| ==> 0.0 <= results[i].duration
    ensures 0.0 <= Sum(Durations(results))
    ensures IsClose(Sum(Durations(results)), Sum(Durations(results)))
  {
    SumNonNegative(Durations(results));
  }

  lemma DescriptionLength(m: Mutation)
    ensures |Description(m)| == 26 + |Text.Decimal(m.row)| + |m.before| + |m.after|
  {
    hide Text.Decimal;
    assert |"line "| == 5 && |" numeric literal "| == 17 && |" -> "| == 4;
  }

  /** The record of a mutant passes its own checks exactly when the two spellings of the
      number, with the digits of the row, fit in 486 characters; otherwise building the
      record aborts the run, although the candidate was evaluated. */
  lemma MutantIsRecordedExactlyWhen(e: Evolver, x: Experiment, parent: CandidateProgram, mutation: Mutation,
                                    trial: CandidateTrial, evaluation: Backtest.ProgramEvaluation, score: ProgramScore)
    requires x.config.Valid()
    requires Digested(e, parent) && Digested(e, mutation.program)
    requires trial.proposal == e.MutationProposal(parent, mutation)
    requires 1 <= |trial.candidateId| <= 256
    requires Reported(evaluation, score.score)
    ensures x.RecordOf(trial, evaluation, score).Valid(e.sha256) <==>
              |Text.Decimal(mutation.row)| + |mutation.before| + |mutation.after| <= 486
  {
    hide Sum, IsClose, IsDigest, MetricsAgree, Text.Decimal;
    DescriptionLength(mutation);
    DurationsAreNonNegative(evaluation.sandboxResults);
    assert |"local_numeric_mutation"| == 22;
  }
}
