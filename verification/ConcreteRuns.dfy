/** Three whole runs a reader can follow: one that a mutation's own description aborts, one
    that a mutant without evolve block aborts, and one that finishes with every evaluation
    attached to the wrong trial. */
module ConcreteRuns {
  import opened Wrappers
  import opened Executors
  import opened Ledger
  import opened Ranking
  import opened Experiments
  import opened LocalEvolver
  import opened EvolverInstance
  import Text
  import Backtest
  import Evaluator
  import LocalRun
  import Properties = EvolverProperties
  import Counts = ExperimentProperties

  // ----- an evaluator and a scorer that report the least they can

  function EvaluationOf(program: CandidateProgram): Backtest.ProgramEvaluation {
    Backtest.ProgramEvaluation(program.sha256, None, None, [], Backtest.SourceInvalid([]))
  }

  function InOrder(programs: seq<CandidateProgram>): seq<Backtest.ProgramEvaluation> {
    seq(|programs|, i requires 0 <= i < |programs| => EvaluationOf(programs[i]))
  }

  function Backwards(programs: seq<CandidateProgram>): seq<Backtest.ProgramEvaluation> {
    seq(|programs|, i requires 0 <= i < |programs| => EvaluationOf(programs[|programs| - 1 - i]))
  }

  function Scored(evaluations: seq<Backtest.ProgramEvaluation>): seq<ProgramScore> {
    seq(|evaluations|, i requires 0 <= i < |evaluations| =>
      ProgramScore(evaluations[i], HonestScore(0.0, 0.0, 0.0, |evaluations| as real, map[])))
  }

  const TWO_TRIALS := ExperimentConfig("a", 0, 0, 1, 2, 2, 1)

  const TWO_ROUNDS := ExperimentConfig("a", 0, 0, 2, 2, 4, 2)

  function BatchesOfTwo(
      config: ExperimentConfig,
      propose: ProposalRequest -> Result<seq<Proposal>, EvolveError>,
      evaluate: seq<CandidateProgram> -> seq<Backtest.ProgramEvaluation>,
      sha256: string -> string): Experiment
  {
    Experiment(
      config, propose,
      (g: nat, programs: seq<CandidateProgram>, asOf: nat) => Some(evaluate(programs)),
      (g: nat, evaluations: seq<Backtest.ProgramEvaluation>) => Some(Scored(evaluations)),
      sha256)
  }

  lemma ConfigsAreValid()
    ensures TWO_TRIALS.Valid() && TWO_ROUNDS.Valid()
  {
  }

  /** The state after a first batch of two. */
  function AfterTwo(a: Proposal, b: Proposal, first: Backtest.ProgramEvaluation, second: Backtest.ProgramEvaluation): RunState {
    START.(
      trials := [ CandidateTrial(CandidateId("a", 0, 0), 0, 0, a), CandidateTrial(CandidateId("a", 0, 1), 1, 0, b)],
      evaluations := [first, second],
      scores := Scored([first, second]))
  }

  /** The first generation of such an experiment is evaluated without complaint. */
  lemma TwoEvaluated(x: Experiment, seeds: seq<CandidateProgram>, a: Proposal, b: Proposal,
                     first: Backtest.ProgramEvaluation, second: Backtest.ProgramEvaluation)
    requires x.config in {TWO_TRIALS, TWO_ROUNDS}
    requires x.propose(x.Request(seeds, START, 0)) == Success([a, b])
    requires x.backtest(0, [a.program, b.program], 0) == Some([first, second])
    requires x.score(0, [first, second]) == Some(Scored([first, second]))
    ensures x.Evaluated(seeds, START, 0) == Success(AfterTwo(a, b, first, second))
  {
    hide CandidateId;
    assert Programs([a, b]) == [a.program, b.program];
    assert [] + [first, second] == [first, second];
    assert [] + x.NewTrials(0, 0, [a, b])
      == [ CandidateTrial(CandidateId("a", 0, 0), 0, 0, a), CandidateTrial(CandidateId("a", 0, 1), 1, 0, b)];
  }

  // ----- a seed and its first mutant

  /** The local evolver mutates the seed at its first attempt. */
  ghost predicate MutatesAtOnce(e: Evolver, seed: CandidateProgram, m: Mutation) {
    && e.Mutated(seed, e.stream(0), 1).0 == Some(m)
    && !e.Crashes(seed, e.stream(0), 1)
    && EvolveBlock(seed.source).Some?
    && e.validate(seed) && e.validate(m.program)
    && e.stream(0)(0) == 0
    && seed.sha256 == Digest('0') && m.program.sha256 == Digest('1')
  }

  lemma DigestsDiffer()
    ensures Digest('0') != Digest('1') && IsDigest(Digest('0')) && IsDigest(Digest('1'))
  {
    assert Digest('0')[0] == '0' && Digest('1')[0] == '1';
  }

  function SeedProposal(seed: CandidateProgram): Proposal {
    Proposal(seed, [], "seed", "unmodified seed")
  }

  function Seeded(seed: CandidateProgram): Search {
    Search({Digest('0')}, [SeedProposal(seed)], 0, 0, false)
  }

  /** One attempt after the seed fills the batch. */
  lemma OneAttempt(e: Evolver, seed: CandidateProgram, m: Mutation)
    requires MutatesAtOnce(e, seed, m)
    ensures var last := e.Searched([seed], e.stream(0), 2, Seeded(seed));
            !last.crashed && last.proposals == [SeedProposal(seed), e.MutationProposal(seed, m)]
  {
    hide Evolver.Mutated, Evolver.Crashes, EvolveBlock;
    DigestsDiffer();
    var next := e.Attempt([seed], e.stream(0), Seeded(seed));
    assert next.proposals == [SeedProposal(seed), e.MutationProposal(seed, m)] && !next.crashed;
    assert e.Searched([seed], e.stream(0), 2, Seeded(seed)) == next;
  }

  /** The evolver proposes the seed and its mutant. */
  lemma SeedAndMutant(e: Evolver, x: Experiment, seed: CandidateProgram, m: Mutation)
    requires MutatesAtOnce(e, seed, m) && x.config in {TWO_TRIALS, TWO_ROUNDS}
    ensures e.Proposed(x.Request([seed], START, 0)) == Success([SeedProposal(seed), e.MutationProposal(seed, m)])
  {
    hide Evolver.Mutated, Evolver.Crashes, EvolveBlock, Hashes, Evolver.Searched;
    var request := x.Request([seed], START, 0);
    NoHashes();
    OneAttempt(e, seed, m);
    OneSeed(e, seed, request);
    assert e.Parents(request) == [seed];
  }

  lemma NoHashes()
    ensures Hashes([]) == {}
  {
  }

  lemma OneSeed(e: Evolver, seed: CandidateProgram, request: ProposalRequest)
    requires e.validate(seed) && seed.sha256 == Digest('0')
    requires request.seedPrograms == [seed] && request.batchSize == 2 && request.seen == {}
    ensures e.WithSeeds(request, 1) == Success(Seeded(seed))
  {
    assert e.WithSeeds(request, 0) == Success(Search({}, [], 0, 0, false));
    assert {} + {seed.sha256} == {Digest('0')};
    assert [] + [SeedProposal(seed)] == [SeedProposal(seed)];
  }

  lemma MutantIsSmall(e: Evolver, parent: CandidateProgram, at: nat)
    requires e.Mutated(parent, e.stream(0), at).0.Some?
    ensures var program := e.Mutated(parent, e.stream(0), at).0.value.program;
            1 <= |program.source| <= MAX_SOURCE && program.sha256 == e.sha256(program.source)
  {
    hide EvolveBlock, Untokenize, Replacements, Evolver.GrowsTooLarge, Evolver.MutableTokens, Evolver.ReplacementText;
  }

  /** The record of an unmodified program passes its checks. */
  lemma SeedRecordValid(x: Experiment, trial: CandidateTrial, evaluation: Backtest.ProgramEvaluation, score: ProgramScore)
    requires x.config in {TWO_TRIALS, TWO_ROUNDS} && 1 <= |trial.candidateId| <= 256
    requires var program := trial.proposal.program;
             && 1 <= |program.source| <= MAX_SOURCE
             && x.sha256(program.source) == program.sha256 && IsDigest(program.sha256)
    requires trial.proposal.parentSha256 == []
    requires trial.proposal.origin == "seed" && trial.proposal.mutation == "unmodified seed"
    requires LocalRun.Reported(evaluation, score.score)
    ensures x.RecordOf(trial, evaluation, score).Valid(x.sha256)
  {
    hide IsClose, IsDigest, MetricsAgree, IsIdentifier;
    LocalRun.DurationsAreNonNegative(evaluation.sandboxResults);
    assert |"seed"| == 4 && |"unmodified seed"| == 15 && |"a"| == 1;
  }

  lemma ScoredIsReported(evaluations: seq<Backtest.ProgramEvaluation>, i: nat)
    requires i < |evaluations| && evaluations[i].sandboxResults == []
    ensures LocalRun.Reported(evaluations[i], Scored(evaluations)[i].score)
  {
  }

  lemma OneAccepted(x: Experiment, record: TrialRecord)
    requires record.Valid(x.sha256)
    ensures x.Audited({}, [], [record]) == ([record], None)
  {
    hide TrialRecord.Valid;
    assert [record][..0] == [];
    assert KeysOf([]) == {};
    assert [] + [record] == [record];
  }

  lemma TwoAccepted(x: Experiment, a: TrialRecord, b: TrialRecord)
    requires a.Valid(x.sha256) && b.Valid(x.sha256) && a.Key() != b.Key()
    ensures x.Audited({}, [], [a, b]) == ([a, b], None)
  {
    hide TrialRecord.Valid, TrialRecord.Key;
    OneAccepted(x, a);
    assert [a, b][..1] == [a];
    assert KeysOf([a]) == {a.Key()};
    assert [a] + [b] == [a, b];
  }

  /** A run of the local evolver from one seed. */
  function RunOf(e: Evolver, config: ExperimentConfig): Experiment {
    LocalRun.WithLocalEvolver(e, BatchesOfTwo(config, _ => Success([]), InOrder, _ => ""))
  }

  /** Its state once the seed and the mutant have been evaluated. */
  function PairEvaluated(e: Evolver, seed: CandidateProgram, m: Mutation): RunState {
    AfterTwo(SeedProposal(seed), e.MutationProposal(seed, m), EvaluationOf(seed), EvaluationOf(m.program))
  }

  lemma PairIsEvaluated(e: Evolver, config: ExperimentConfig, seed: CandidateProgram, m: Mutation)
    requires MutatesAtOnce(e, seed, m) && config in {TWO_TRIALS, TWO_ROUNDS}
    ensures RunOf(e, config).Evaluated([seed], START, 0) == Success(PairEvaluated(e, seed, m))
  {
    hide Evolver.Proposed, MutatesAtOnce, Experiment.Evaluated, EvaluationOf, CandidateId;
    var x := RunOf(e, config);
    SeedAndMutant(e, x, seed, m);
    assert InOrder([seed, m.program]) == [EvaluationOf(seed), EvaluationOf(m.program)];
    TwoEvaluated(x, [seed], SeedProposal(seed), e.MutationProposal(seed, m), EvaluationOf(seed), EvaluationOf(m.program));
  }

  /** Its records: the seed's is valid, the mutant's exactly when its description fits. */
  lemma PairRecords(e: Evolver, config: ExperimentConfig, seed: CandidateProgram, m: Mutation)
    requires MutatesAtOnce(e, seed, m) && config in {TWO_TRIALS, TWO_ROUNDS}
    requires 1 <= |seed.source| <= MAX_SOURCE && e.sha256(seed.source) == seed.sha256
    ensures var x, next := RunOf(e, config), PairEvaluated(e, seed, m);
            var items := x.NewRecords(next.trials, next.evaluations, next.scores, 0);
            && |items| == 2 && items[0].Valid(x.sha256) && items[0].Key() != items[1].Key()
            && (items[1].Valid(x.sha256) <==> |Text.Decimal(m.row)| + |m.before| + |m.after| <= 486)
  {
    hide Evolver.Mutated, EvolveBlock, Experiment.RecordOf, TrialRecord.Valid, CandidateId, KeysOf, IsIdentifier;
    hide Evolver.Crashes, Text.Decimal;
    var x, next := RunOf(e, config), PairEvaluated(e, seed, m);
    DigestsDiffer();
    MutantIsSmall(e, seed, 1);
    ScoredIsReported(next.evaluations, 0);
    ScoredIsReported(next.evaluations, 1);
    ConfigsAreValid();
    Counts.IdOrder("a", 0, 0, 0, 1);
    Counts.IdOrder("a", 0, 1, 0, 1);
    Counts.KeyOfRecord(x, next.trials[0], next.evaluations[0], next.scores[0]);
    Counts.KeyOfRecord(x, next.trials[1], next.evaluations[1], next.scores[1]);
    SeedRecordValid(x, next.trials[0], next.evaluations[0], next.scores[0]);
    LocalRun.MutantIsRecordedExactlyWhen(e, x, seed, m, next.trials[1], next.evaluations[1], next.scores[1]);
  }

  // ----- what the seeds alone guarantee can be had

  /** An evolver under which mutants are lexed and mutate again, and that meets all that is
      assumed where the seeds alone keep a run from missing a block. */
  lemma LineageAssumptionsHold()
    ensures LocalRun.Assumed(Family()) && LocalRun.Settles(Family()) && LocalRun.KeepsNewlineSources(Family())
  {
    hide Properties.FormatsSound, Properties.LexerSound, Properties.WrittenBack, LocalRun.MutantOf, LocalRun.KeepsNewlineSources;
    FamilyIsSound();
    LocalRun.UnchangedKeepsNewlineSources(Family());
  }

  // ----- a description too long for a record

  function Long(): string {
    "0.5" + seq(600, _ => '0')
  }

  function Spelling(): Evolver {
    MarkedEvolver(Long())
  }

  function LongSeed(): CandidateProgram {
    MarkedProgram(Long())
  }

  lemma LongIsPlain()
    ensures |Long()| == 603 && "0.5" <= Long() && Text.Unbroken(Long()) && Properties.Plain(Long())
  {
    assert forall i :: 3 <= i < |Long()| ==> Long()[i] == '0';
    assert Text.IsDigit(Long()[0]);
  }

  lemma LongMutates() returns (m: Mutation)
    ensures MutatesAtOnce(Spelling(), LongSeed(), m)
    ensures |m.before| == 603
  {
    hide Evolver.Mutated, Evolver.Crashes, ReadLiteral, EvolveBlock, Marked;
    LongIsPlain();
    FloatMutates(Long(), 1);
    MarkedHasBlock(Long());
    m := Spelling().Mutated(LongSeed(), Spelling().stream(0), 1).0.value;
  }

  /** A run of the local evolver whose first mutant takes 603 characters to say which number it
      replaced: proposed, evaluated and scored, it ends the run when its record is built. */
  lemma LongDescriptionEndsRun()
    ensures var e, x, seeds := Spelling(), RunOf(Spelling(), TWO_TRIALS), [LongSeed()];
            && LocalRun.Assumed(e) && e.AllHaveBlocks(seeds) && x.config.Valid()
            && x.Outcome(seeds, {}).0 == Failure(InvalidRecord)
            && |x.Outcome(seeds, {}).1| == 1
  {
    hide Evolver.Mutated, Evolver.Proposed, EvolveBlock, ReadLiteral, Experiment.Evaluated, Experiment.Outcome;
    hide Experiment.Audited, Experiment.RecordOf, TrialRecord.Valid, Properties.FormatsSound, Properties.Faithful;
    hide CandidateId, KeysOf, Marked, Text.Decimal, PairEvaluated, Evolver.Crashes;
    var e, x, seeds := Spelling(), RunOf(Spelling(), TWO_TRIALS), [LongSeed()];
    ConfigsAreValid();
    LongIsPlain();
    MarkedIsFaithful(Long());
    InstanceIsSound(Marked(Long()), MarkedTokens(Long()));
    MarkedHasBlock(Long());
    var m := LongMutates();
    PairIsEvaluated(e, TWO_TRIALS, LongSeed(), m);
    PairRecords(e, TWO_TRIALS, LongSeed(), m);
    var next := PairEvaluated(e, LongSeed(), m);
    var items := x.NewRecords(next.trials, next.evaluations, next.scores, 0);
    assert items[..1] == [items[0]];
    OneAccepted(x, items[0]);
    Counts.InvalidRecordEndsRun(x, seeds, {}, 0, 1);
  }

  // ----- a parent without a block

  function Losing(): Evolver {
    Instance(Lost(), LostTokens())
  }

  lemma LostSourceIsSmall()
    ensures 1 <= |Lost()| <= MAX_SOURCE
  {
    LostIsSmall();
  }

  lemma LosingMutates() returns (m: Mutation)
    ensures MutatesAtOnce(Losing(), ProgramOf(Lost()), m) && LocalRun.MutantOf(Losing(), ProgramOf(Lost()), m.program)
    ensures m.row == 3 && |m.before| == 1 && |m.after| == 1
  {
    hide Evolver.Mutated, Evolver.Crashes, ReadLiteral, EvolveBlock;
    LostBlockMutates(1);
    var e := Losing();
    m := e.Mutated(ProgramOf(Lost()), e.stream(0), 1).0.value;
  }

  /** With two elites both programs of a batch of two become parents. */
  lemma BothAreParents(x: Experiment, s: RunState)
    requires x.config == TWO_ROUNDS && s.Aligned() && |s.trials| == 2
    ensures exists i :: 0 <= i < |x.SelectParents(s)| && x.SelectParents(s)[i].program == s.trials[1].proposal.program
  {
    hide Ranked;
    var ranked := Ranked(s.Outcomes(), StandingOf);
    RankedKeeps(s.Outcomes(), StandingOf);
    SharedMember(s.Outcomes(), ranked, s.Outcomes()[1]);
    var k :| 0 <= k < |ranked| && ranked[k] == s.Outcomes()[1];
    assert x.SelectParents(s)[k].program == s.trials[1].proposal.program;
  }

  lemma FirstRound(e: Evolver, seed: CandidateProgram, m: Mutation)
    requires MutatesAtOnce(e, seed, m)
    requires 1 <= |seed.source| <= MAX_SOURCE && e.sha256(seed.source) == seed.sha256
    requires |Text.Decimal(m.row)| + |m.before| + |m.after| <= 486
    ensures var run := RunOf(e, TWO_ROUNDS).Reach([seed], {}, 1);
            && run.error.None? && |run.state.trials| == |run.state.records| == 2
            && LocalRun.ProgramsOf(run.state.trials) == [seed, m.program]
            && exists i :: 0 <= i < |run.state.parents| && run.state.parents[i].program == m.program
  {
    hide Experiment.Evaluated, Experiment.Audited, Experiment.RecordOf, TrialRecord.Valid, Experiment.SelectParents;
    hide MutatesAtOnce, Text.Decimal, CandidateId, KeysOf, TrialRecord.Key;
    var x, next := RunOf(e, TWO_ROUNDS), PairEvaluated(e, seed, m);
    PairIsEvaluated(e, TWO_ROUNDS, seed, m);
    PairRecords(e, TWO_ROUNDS, seed, m);
    var items := x.NewRecords(next.trials, next.evaluations, next.scores, 0);
    assert items == [items[0], items[1]];
    TwoAccepted(x, items[0], items[1]);
    BothAreParents(x, next);
    assert x.Reach([seed], {}, 0) == Progress(START, None);
    assert x.Reach([seed], {}, 1) == x.Generation([seed], {}, START, 0);
    assert LocalRun.ProgramsOf(next.trials) == [seed, m.program];
  }

  /** A run of the local evolver whose first mutant has no block left: its seed has one, both
      are evaluated and recorded, and the second generation ends the run. */
  lemma LostBlockEndsRun()
    ensures var e, x, seeds := Losing(), RunOf(Losing(), TWO_ROUNDS), [ProgramOf(Lost())];
            && LocalRun.Assumed(e) && e.AllHaveBlocks(seeds) && x.config.Valid()
            && x.Outcome(seeds, {}).0 == Failure(EvolverFailed(NoEvolveBlock))
            && |x.Outcome(seeds, {}).1| == 2
  {
    hide Evolver.Mutated, Evolver.Crashes, EvolveBlock, Properties.FormatsSound, Properties.LexerSound, Properties.BlockSurvives;
    hide LocalRun.MutantOf, Experiment.Generation, Losing, Text.Decimal, MutatesAtOnce;
    var e, seeds := Losing(), [ProgramOf(Lost())];
    var x := RunOf(e, TWO_ROUNDS);
    ConfigsAreValid();
    LostSourceIsSmall();
    LosingIsAssumed();
    var m := LosingMutates();
    assert Text.Decimal(3) == "3" by { DecimalOfThree(); }
    FirstRound(e, ProgramOf(Lost()), m);
    var s := x.Reach(seeds, {}, 1).state;
    assert LocalRun.Pool(seeds, s)[0] == ProgramOf(Lost());
    assert LocalRun.Orphaned(e, LocalRun.Pool(seeds, s), m.program);
    assert LocalRun.HasOrphan(e, seeds, s);
    LocalRun.MissingBlockExactlyWhen(e, x, seeds, {}, 1);
    LocalRun.MissingBlockKeepsState(e, x, seeds, {}, s, 1);
  }

  lemma DecimalOfThree()
    ensures Text.Decimal(3) == "3"
  {
  }

  lemma LosingIsAssumed()
    ensures LocalRun.Assumed(Losing()) && !Properties.BlockSurvives(Losing(), Lost())
    ensures Losing().AllHaveBlocks([ProgramOf(Lost())]) && Losing().sha256(Lost()) == Digest('0')
  {
    hide Evolver.Mutated, Evolver.Crashes, EvolveBlock, Properties.FormatsSound, Properties.LexerSound, Properties.BlockSurvives;
    LostBlockMutates(1);
  }

  // ----- evaluations attached to the wrong trials

  const FIRST := Proposal(CandidateProgram("a", Digest('0')), [], "seed", "unmodified seed")

  const SECOND := Proposal(CandidateProgram("b", Digest('1')), [], "seed", "unmodified seed")

  function ShaOfTwo(source: string): string {
    if source == "a" then Digest('0') else Digest('1')
  }

  function SwappedRun(): Experiment {
    BatchesOfTwo(TWO_TRIALS, _ => Success([FIRST, SECOND]), Backwards, ShaOfTwo)
  }

  /** The evaluator answers a batch of two backwards; every check of the loop passes, the run
      finishes, and each trial carries the other one's evaluation. */
  lemma SwappedRunFinishes(seeds: seq<CandidateProgram>)
    requires seeds != []
    ensures var x := SwappedRun();
            && x.config.Valid()
            && x.Outcome(seeds, {}).0.Success?
            && !Evaluator.SameProgram(x.Reach(seeds, {}, x.config.generations).state)
  {
    hide Experiment.Evaluated, Experiment.Audited, Experiment.RecordOf, TrialRecord.Valid, CandidateId, KeysOf;
    hide Experiment.SelectParents, Digest;
    var x := SwappedRun();
    ConfigsAreValid();
    DigestsDiffer();
    var evaluations := [EvaluationOf(SECOND.program), EvaluationOf(FIRST.program)];
    assert Backwards([FIRST.program, SECOND.program]) == evaluations;
    TwoEvaluated(x, seeds, FIRST, SECOND, evaluations[0], evaluations[1]);
    var next := x.Evaluated(seeds, START, 0).value;
    var items := x.NewRecords(next.trials, next.evaluations, next.scores, 0);
    SwappedRecords(x, next, items);
    assert x.Reach(seeds, {}, 0) == Progress(START, None);
    assert x.Reach(seeds, {}, 1) == x.Generation(seeds, {}, START, 0);
    assert x.Generation(seeds, {}, START, 0).state.trials[0].proposal == FIRST;
  }

  lemma SwappedRecords(x: Experiment, next: RunState, items: seq<TrialRecord>)
    requires x == SwappedRun()
    requires next == AfterTwo(FIRST, SECOND, EvaluationOf(SECOND.program), EvaluationOf(FIRST.program))
    requires items == x.NewRecords(next.trials, next.evaluations, next.scores, 0)
    ensures x.Audited({}, [], items) == (items, None)
  {
    hide Experiment.RecordOf, TrialRecord.Valid, CandidateId, KeysOf, IsIdentifier, Digest, IsDigest;
    DigestsDiffer();
    Counts.IdOrder("a", 0, 0, 0, 1);
    Counts.IdOrder("a", 0, 1, 0, 1);
    forall k: nat | k < 2
      ensures items[k].Valid(x.sha256) && items[k].Key() == ("a", k)
    {
      ScoredIsReported(next.evaluations, k);
      Counts.KeyOfRecord(x, next.trials[k], next.evaluations[k], next.scores[k]);
      SeedRecordValid(x, next.trials[k], next.evaluations[k], next.scores[k]);
    }
    TwoAccepted(x, items[0], items[1]);
    assert items == [items[0], items[1]];
  }
}
