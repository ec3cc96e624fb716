/** What every run of the experiment loop keeps: its counts, its audit trail, its ranking. */
module ExperimentProperties {
  import opened Wrappers
  import opened Vectors
  import opened Executors
  import opened Ledger
  import opened Ranking
  import opened Experiments
  import Text
  import Backtest
  import LocalEvolver

  // ----- candidate ids sort as text the way they were proposed

  lemma IdOrder(id: string, g: nat, i: nat, h: nat, j: nat)
    requires g < 10_000 && h < 10_000 && i < 1_000_000 && j < 1_000_000
    ensures Text.Less(CandidateId(id, g, i), CandidateId(id, h, j)) <==> g < h || (g == h && i < j)
    ensures CandidateId(id, g, i) == CandidateId(id, h, j) <==> g == h && i == j
    ensures |CandidateId(id, g, i)| == |id| + 14
  {
    hide Text.Less, Text.Padded, Text.Power10;
    Powers();
    Text.PaddedOrder(g, h, 4);
    Text.PaddedOrder(i, j, 6);
    var a, b := Text.Padded(g, 4), Text.Padded(h, 4);
    var x, y := Text.Padded(i, 6), Text.Padded(j, 6);
    Text.LessOfPrefixed(id + ":g", id + ":g", a + (":t" + x), b + (":t" + y));
    Text.LessOfPrefixed(a, b, ":t" + x, ":t" + y);
    Text.LessOfPrefixed(":t", ":t", x, y);
    assert CandidateId(id, g, i) == id + ":g" + (a + (":t" + x));
    assert CandidateId(id, h, j) == id + ":g" + (b + (":t" + y));
    if CandidateId(id, g, i) == CandidateId(id, h, j) {
      var n := |id| + 2;
      assert CandidateId(id, g, i)[n..n + 4] == a && CandidateId(id, h, j)[n..n + 4] == b;
      assert CandidateId(id, g, i)[n + 6..] == x && CandidateId(id, h, j)[n + 6..] == y;
    }
  }

  /** An id spells the experiment, ":g" and four digits of the generation, ":t" and six digits
      of the index. */
  lemma IdReads(id: string, g: nat, i: nat)
    requires g < 10_000 && i < 1_000_000
    ensures var text, n := CandidateId(id, g, i), |id|;
            && |text| == n + 14
            && text[..n] == id
            && text[n..n + 2] == ":g" && Text.AllDigits(text[n + 2..n + 6]) && Text.Spelled(text[n + 2..n + 6]) == g
            && text[n + 6..n + 8] == ":t" && Text.AllDigits(text[n + 8..]) && Text.Spelled(text[n + 8..]) == i
  {
    hide Text.Padded, Text.Power10, Text.Spelled, Text.AllDigits;
    Powers();
    Text.PaddedSpells(g, 4);
    Text.PaddedSpells(i, 6);
    var n, text := |id|, CandidateId(id, g, i);
    assert text == id + ":g" + Text.Padded(g, 4) + ":t" + Text.Padded(i, 6);
    assert text[n + 2..n + 6] == Text.Padded(g, 4) && text[n + 8..] == Text.Padded(i, 6);
  }

  lemma Powers()
    ensures Text.Power10(4) == 10_000 && Text.Power10(6) == 1_000_000
  {
    assert Text.Power10(2) == 100;
    assert Text.Power10(4) == 10_000;
  }

  // ----- counting

  function Least(a: nat, b: nat): nat {
    if a < b then a else b
  }

  /** Rounds needed to spend a budget. */
  function CeilDiv(a: nat, b: nat): nat
    requires 0 < b
  {
    (a + b - 1) / b
  }

  lemma MulBounds(b: nat, g: nat, h: nat)
    requires g <= h
    ensures g * b <= h * b
  {
  }

  lemma Quotient(b: nat, q: nat, i: nat)
    requires 0 < b && q * b <= i < q * b + b
    ensures i / b == q
  {
    var r := i - q * b;
    assert i == q * b + r && 0 <= r < b;
    if i / b < q {
      MulBounds(b, i / b + 1, q);
    } else if q < i / b {
      MulBounds(b, q + 1, i / b);
    }
  }

  lemma QuotientBelow(b: nat, q: nat, i: nat)
    requires 0 < b && i < q * b
    ensures i / b < q
  {
    if q <= i / b {
      MulBounds(b, q, i / b);
    }
  }

  lemma CeilDivBounds(a: nat, b: nat, g: nat)
    requires 0 < b
    ensures g < CeilDiv(a, b) <==> g * b < a
  {
    var c := CeilDiv(a, b);
    assert c * b <= a + b - 1 < c * b + b;
    if g < c {
      MulBounds(b, g + 1, c);
    } else {
      MulBounds(b, c, g);
    }
  }

  /** The generation whose batch holds trial i. */
  function GenerationOf(config: ExperimentConfig, i: nat): nat
    requires 0 < config.batchSize
  {
    i / config.batchSize
  }

  /** Trial i is the i-th evaluation, in the generation its batch belongs to. */
  predicate TrialAt(config: ExperimentConfig, trial: CandidateTrial, i: nat)
    requires 0 < config.batchSize
  {
    && trial.evaluationIndex == i
    && trial.generation == GenerationOf(config, i)
    && trial.candidateId == CandidateId(config.experimentId, GenerationOf(config, i), i)
  }

  /** The bytes of all windows together, one window after another. */
  function StdoutOver(results: seq<SandboxResult>): nat {
    if results == [] then 0 else StdoutOver(results[..|results| - 1]) + results[|results| - 1].stdoutBytes
  }

  function StderrOver(results: seq<SandboxResult>): nat {
    if results == [] then 0 else StderrOver(results[..|results| - 1]) + results[|results| - 1].stderrBytes
  }

  function DurationOver(results: seq<SandboxResult>): real {
    if results == [] then 0.0 else DurationOver(results[..|results| - 1]) + results[|results| - 1].duration
  }

  lemma {:induction false} SumOfNatsAppends(s: seq<nat>, n: nat)
    ensures SumOfNats(s + [n]) == SumOfNats(s) + n
  {
    if s == [] {
      assert s + [n] == [n];
    } else {
      SumOfNatsAppends(s[1..], n);
      assert (s + [n])[1..] == s[1..] + [n];
    }
  }

  lemma {:induction false} BytesAddUp(results: seq<SandboxResult>)
    ensures StdoutBytes(results) == StdoutOver(results)
    ensures StderrBytes(results) == StderrOver(results)
  {
    hide SumOfNats;
    if results == [] {
      NoBytes();
    } else {
      var n := |results| - 1;
      BytesAddUp(results[..n]);
      var stdout: seq<nat> := seq(n, i requires 0 <= i < n => results[..n][i].stdoutBytes);
      var stderr: seq<nat> := seq(n, i requires 0 <= i < n => results[..n][i].stderrBytes);
      SumOfNatsAppends(stdout, results[n].stdoutBytes);
      SumOfNatsAppends(stderr, results[n].stderrBytes);
      assert stdout + [results[n].stdoutBytes]
          == seq(|results|, i requires 0 <= i < |results| => results[i].stdoutBytes);
      assert stderr + [results[n].stderrBytes]
          == seq(|results|, i requires 0 <= i < |results| => results[i].stderrBytes);
    }
  }

  lemma NoBytes()
    ensures StdoutBytes([]) == 0 == StderrBytes([])
  {
  }

  lemma {:induction false} DurationsAddUp(results: seq<SandboxResult>)
    ensures Sum(Durations(results)) == DurationOver(results)
  {
    if results != [] {
      var n := |results| - 1;
      DurationsAddUp(results[..n]);
      assert Durations(results)[..n] == Durations(results[..n]);
      SumPrefix(Durations(results), n);
      assert Durations(results)[..n + 1] == Durations(results);
    }
  }

  /** Its record repeats the trial and its evaluation, and carries the number of trials
      scored together with it. */
  predicate RecordAt(config: ExperimentConfig, record: TrialRecord, trial: CandidateTrial,
                     evaluation: Backtest.ProgramEvaluation, i: nat)
    requires 0 < config.batchSize
  {
    && record.Key() == (config.experimentId, i)
    && record.candidateId == trial.candidateId
    && record.generation == trial.generation
    && record.programSha256 == trial.proposal.program.sha256
    && record.programSource == trial.proposal.program.source
    && record.parentSha256 == trial.proposal.parentSha256
    && record.origin == trial.proposal.origin
    && record.mutation == trial.proposal.mutation
    && record.error == evaluation.error
    && record.sourceBytes == (if evaluation.metadata.Some? then evaluation.metadata.value.sourceBytes else 0)
    && record.astNodes == (if evaluation.metadata.Some? then evaluation.metadata.value.astNodes else 0)
    && WindowsAt(record, evaluation.sandboxResults)
    && record.trialCount == Least(config.evaluationBudget, (GenerationOf(config, i) + 1) * config.batchSize)
  }

  /** The record's account of the windows: each one's status and duration, and what they add
      up to. */
  predicate WindowsAt(record: TrialRecord, results: seq<SandboxResult>) {
    && |record.windowStatuses| == |record.windowDurations| == |results|
    && (forall k :: 0 <= k < |results| ==>
          record.windowStatuses[k] == results[k].status && record.windowDurations[k] == results[k].duration)
    && record.totalDuration == DurationOver(results)
    && record.stdoutBytes == StdoutOver(results)
    && record.stderrBytes == StderrOver(results)
  }

  predicate Counted(x: Experiment, s: RunState, g: nat)
    requires 0 < x.config.batchSize
  {
    var config := x.config;
    && s.Aligned()
    && |s.records| == |s.trials| == Least(config.evaluationBudget, g * config.batchSize)
    && s.generations == Least(g, CeilDiv(config.evaluationBudget, config.batchSize))
    && (forall i :: 0 <= i < |s.trials| ==> TrialAt(config, s.trials[i], i))
    && (forall i :: 0 <= i < |s.records| ==> RecordAt(config, s.records[i], s.trials[i], s.evaluations[i], i))
    && x.KeepsOrder(s)
    && x.CountsAllTrials(s)
  }

  /** The records accepted are the first of those offered, all of them unless refused. */
  lemma {:induction false} AuditedIsPrefix(x: Experiment, taken: set<Key>, before: seq<TrialRecord>, items: seq<TrialRecord>)
    ensures var (records, error) := x.Audited(taken, before, items);
            && |before| <= |records| <= |before| + |items|
            && records == before + items[..|records| - |before|]
            && (error.None? <==> |records| == |before| + |items|)
            && (error.Some? ==> error.value.InvalidRecord? || error.value.DuplicateRecord?)
            && (error == Some(DuplicateRecord) ==> items[|records| - |before|].Key() in taken + KeysOf(records))
            && (forall k :: |before| <= k < |records| ==> records[k].Key() !in taken && records[k].Valid(x.sha256))
  {
    hide KeysOf, TrialRecord.Valid;
    if items == [] {
      assert before + items[..0] == before;
    } else {
      var n := |items| - 1;
      AuditedIsPrefix(x, taken, before, items[..n]);
      var (records, error) := x.Audited(taken, before, items[..n]);
      var m := |records| - |before|;
      assert items[..n][..m] == items[..m];
      if error.None? {
        assert items[..n + 1] == items[..n] + [items[n]];
        if error == None && items[n].Valid(x.sha256) && items[n].Key() !in taken + KeysOf(records) {
          assert records + [items[n]] == before + items[..n + 1];
        }
      }
    }
  }

  lemma TruncatedOfCount(n: nat)
    ensures Truncated(n as real) == n
  {
  }

  lemma EvaluatedCounts(x: Experiment, seeds: seq<CandidateProgram>, s: RunState, g: nat)
    requires 0 < x.config.batchSize
    requires Counted(x, s, g) && |s.trials| < x.config.evaluationBudget
    requires x.Evaluated(seeds, s, g).Success?
    ensures var next := x.Evaluated(seeds, s, g).value;
            && |next.trials| == Least(x.config.evaluationBudget, (g + 1) * x.config.batchSize)
            && (forall i :: 0 <= i < |next.trials| ==> TrialAt(x.config, next.trials[i], i))
            && s.trials <= next.trials && s.evaluations <= next.evaluations
            && x.KeepsOrder(next) && x.CountsAllTrials(next)
            && next.records == s.records && next.generations == s.generations
  {
    var next := x.Evaluated(seeds, s, g).value;
    var b, first := x.config.batchSize, |s.trials|;
    assert first == g * b;
    assert (g + 1) * b == first + b;
    forall i | first <= i < |next.trials|
      ensures TrialAt(x.config, next.trials[i], i)
    {
      Quotient(b, g, i);
    }
  }

  lemma RecordFits(x: Experiment, trial: CandidateTrial, evaluation: Backtest.ProgramEvaluation,
                   score: ProgramScore, i: nat, g: nat, total: nat)
    requires 0 < x.config.batchSize
    requires TrialAt(x.config, trial, i) && GenerationOf(x.config, i) == g
    requires score.score.trialCount == total as real
    requires total == Least(x.config.evaluationBudget, (g + 1) * x.config.batchSize)
    ensures RecordAt(x.config, x.RecordOf(trial, evaluation, score), trial, evaluation, i)
  {
    hide StdoutBytes, StderrBytes, CandidateId, Sum, StdoutOver, StderrOver, DurationOver;
    TruncatedOfCount(total);
    BytesAddUp(evaluation.sandboxResults);
    DurationsAddUp(evaluation.sandboxResults);
  }

  lemma NewRecordsFit(x: Experiment, next: RunState, first: nat, g: nat, k: nat)
    requires 0 < x.config.batchSize && next.Aligned()
    requires first == g * x.config.batchSize && k < |next.trials| - first
    requires |next.trials| == Least(x.config.evaluationBudget, (g + 1) * x.config.batchSize)
    requires TrialAt(x.config, next.trials[first + k], first + k)
    requires x.CountsAllTrials(next)
    ensures RecordAt(x.config, x.NewRecords(next.trials, next.evaluations, next.scores, first)[k],
                     next.trials[first + k], next.evaluations[first + k], first + k)
  {
    hide TrialAt, RecordAt, Experiment.RecordOf;
    assert next.scores[first + k].score.trialCount == |next.trials| as real;
    assert (g + 1) * x.config.batchSize == first + x.config.batchSize;
    Quotient(x.config.batchSize, g, first + k);
    RecordFits(x, next.trials[first + k], next.evaluations[first + k], next.scores[first + k],
               first + k, g, |next.trials|);
  }

  lemma GenerationCounts(x: Experiment, seeds: seq<CandidateProgram>, taken: set<Key>, s: RunState, g: nat)
    requires 0 < x.config.batchSize
    requires Counted(x, s, g) && |s.trials| < x.config.evaluationBudget
    ensures var run := x.Generation(seeds, taken, s, g); run.error.None? ==> Counted(x, run.state, g + 1)
  {
    hide Experiment.Evaluated, Experiment.Audited, Experiment.SelectParents, TrialAt, RecordAt, KeysOf;
    var run := x.Generation(seeds, taken, s, g);
    if run.error.None? {
      EvaluatedCounts(x, seeds, s, g);
      var next := x.Evaluated(seeds, s, g).value;
      var first := |s.trials|;
      var items := x.NewRecords(next.trials, next.evaluations, next.scores, first);
      AuditedIsPrefix(x, taken, s.records, items);
      assert run.state.records == s.records + items;
      assert first == g * x.config.batchSize;
      forall i | 0 <= i < |run.state.records|
        ensures RecordAt(x.config, run.state.records[i], run.state.trials[i], run.state.evaluations[i], i)
      {
        if i < first {
          assert run.state.trials[i] == s.trials[i] && run.state.evaluations[i] == s.evaluations[i];
        } else {
          NewRecordsFit(x, next, first, g, i - first);
        }
      }
      CeilDivBounds(x.config.evaluationBudget, x.config.batchSize, g);
    }
  }

  lemma SpentBudgetCounts(x: Experiment, s: RunState, g: nat)
    requires 0 < x.config.batchSize
    requires Counted(x, s, g) && x.config.evaluationBudget <= |s.trials|
    ensures Counted(x, s, g + 1)
  {
    MulBounds(x.config.batchSize, g, g + 1);
    CeilDivBounds(x.config.evaluationBudget, x.config.batchSize, g);
  }

  /** However the run goes, the state after g rounds is counted as promised. */
  lemma {:induction false} CountedThroughout(x: Experiment, seeds: seq<CandidateProgram>, taken: set<Key>, g: nat)
    requires 0 < x.config.batchSize
    ensures var run := x.Reach(seeds, taken, g); run.error.None? ==> Counted(x, run.state, g)
  {
    hide Counted, Experiment.Generation;
    if g == 0 {
      CountedAtStart(x);
    } else {
      CountedThroughout(x, seeds, taken, g - 1);
      var before := x.Reach(seeds, taken, g - 1);
      if before.error.None? {
        if x.config.evaluationBudget <= |before.state.trials| {
          SpentBudgetCounts(x, before.state, g - 1);
        } else {
          GenerationCounts(x, seeds, taken, before.state, g - 1);
        }
      }
    }
  }

  lemma CountedAtStart(x: Experiment)
    requires 0 < x.config.batchSize
    ensures Counted(x, START, 0)
  {
  }

  // ----- the audit trail of every run, finished or aborted

  /** Evaluation indices 0, 1, 2, ... of this experiment, none of which the ledger held. */
  predicate AuditTrail(x: Experiment, taken: set<Key>, records: seq<TrialRecord>) {
    forall i :: 0 <= i < |records| ==>
      && records[i].Key() == (x.config.experimentId, i)
      && records[i].Key() !in taken
      && records[i].Valid(x.sha256)
  }

  lemma TrailKeys(x: Experiment, taken: set<Key>, records: seq<TrialRecord>, i: nat)
    requires AuditTrail(x, taken, records)
    ensures (x.config.experimentId, i) in KeysOf(records) <==> i < |records|
  {
    if i < |records| {
      assert records[i].Key() in KeysOf(records);
    }
  }

  lemma TrailExtends(x: Experiment, taken: set<Key>, before: seq<TrialRecord>, items: seq<TrialRecord>)
    requires AuditTrail(x, taken, before)
    requires forall k :: 0 <= k < |items| ==> items[k].Key() == (x.config.experimentId, |before| + k)
    ensures var (records, error) := x.Audited(taken, before, items);
            && AuditTrail(x, taken, records)
            && (error == Some(DuplicateRecord) ==> (x.config.experimentId, |records|) in taken)
  {
    hide Experiment.Audited, KeysOf, TrialRecord.Valid;
    AuditedIsPrefix(x, taken, before, items);
    var records := x.Audited(taken, before, items).0;
    TrailKeys(x, taken, records, |records|);
  }

  lemma NewKeysFollow(x: Experiment, next: RunState, first: nat, k: nat)
    requires 0 < x.config.batchSize && next.Aligned() && k < |next.trials| - first
    requires TrialAt(x.config, next.trials[first + k], first + k)
    ensures x.NewRecords(next.trials, next.evaluations, next.scores, first)[k].Key()
              == (x.config.experimentId, first + k)
  {
    KeyOfRecord(x, next.trials[first + k], next.evaluations[first + k], next.scores[first + k]);
    hide Experiment.RecordOf, TrialRecord.Key;
  }

  lemma KeyOfRecord(x: Experiment, trial: CandidateTrial, evaluation: Backtest.ProgramEvaluation, score: ProgramScore)
    ensures x.RecordOf(trial, evaluation, score).Key() == (x.config.experimentId, trial.evaluationIndex)
  {
  }

  lemma GenerationTrail(x: Experiment, seeds: seq<CandidateProgram>, taken: set<Key>, s: RunState, g: nat)
    requires 0 < x.config.batchSize
    requires Counted(x, s, g) && |s.trials| < x.config.evaluationBudget
    requires AuditTrail(x, taken, s.records)
    ensures var run := x.Generation(seeds, taken, s, g);
            && AuditTrail(x, taken, run.state.records)
            && (run.error == Some(DuplicateRecord) ==> (x.config.experimentId, |run.state.records|) in taken)
  {
    hide Experiment.Evaluated, Experiment.Audited, Experiment.SelectParents, Experiment.NewRecords;
    hide AuditTrail, TrialAt, RecordAt;
    if x.Evaluated(seeds, s, g).Success? {
      EvaluatedCounts(x, seeds, s, g);
      var next := x.Evaluated(seeds, s, g).value;
      var first := |s.trials|;
      var items := x.NewRecords(next.trials, next.evaluations, next.scores, first);
      assert |items| == |next.trials| - first by { NewRecordsLength(x, next, first); }
      forall k | 0 <= k < |items|
        ensures items[k].Key() == (x.config.experimentId, first + k)
      {
        NewKeysFollow(x, next, first, k);
      }
      TrailExtends(x, taken, s.records, items);
    } else {
      EvaluationNeverDuplicates(x, seeds, s, g);
    }
  }

  lemma NewRecordsLength(x: Experiment, next: RunState, first: nat)
    requires next.Aligned() && first <= |next.trials|
    ensures |x.NewRecords(next.trials, next.evaluations, next.scores, first)| == |next.trials| - first
  {
  }

  lemma EvaluationNeverDuplicates(x: Experiment, seeds: seq<CandidateProgram>, s: RunState, g: nat)
    requires s.Aligned()
    ensures x.Evaluated(seeds, s, g) != Failure(DuplicateRecord)
    ensures x.Evaluated(seeds, s, g) != Failure(InvalidRecord)
  {
  }

  /** At every point of every run, aborted or not, the records appended are the evaluation
      indices 0..k-1 of this experiment, once each and in order; a duplicate is reported only
      if the ledger held the very next one before the run. */
  lemma {:induction false} AuditTrailThroughout(x: Experiment, seeds: seq<CandidateProgram>, taken: set<Key>, g: nat)
    requires 0 < x.config.batchSize
    ensures var run := x.Reach(seeds, taken, g);
            && AuditTrail(x, taken, run.state.records)
            && (run.error == Some(DuplicateRecord) ==> (x.config.experimentId, |run.state.records|) in taken)
  {
    hide Counted, Experiment.Generation, AuditTrail;
    if g == 0 {
      TrailAtStart(x, taken);
    } else {
      AuditTrailThroughout(x, seeds, taken, g - 1);
      var before := x.Reach(seeds, taken, g - 1);
      if before.error.None? && |before.state.trials| < x.config.evaluationBudget {
        CountedThroughout(x, seeds, taken, g - 1);
        GenerationTrail(x, seeds, taken, before.state, g - 1);
      }
    }
  }

  lemma TrailAtStart(x: Experiment, taken: set<Key>)
    ensures AuditTrail(x, taken, START.records)
  {
  }

  /** A ledger that held nothing of this experiment never refuses one of its records, and
      ends up holding exactly its indices 0..k-1, whether or not the run finishes. */
  lemma FreshExperimentIsRecorded(x: Experiment, seeds: seq<CandidateProgram>, taken: set<Key>)
    requires x.config.Valid()
    requires forall i: nat :: (x.config.experimentId, i) !in taken
    ensures var (result, records) := x.Outcome(seeds, taken);
            && result != Failure(DuplicateRecord)
            && (forall i: nat :: (x.config.experimentId, i) in taken + KeysOf(records) <==> i < |records|)
            && (result.Success? ==> records == result.value.records && |records| == result.value.EvaluationsUsed())
  {
    hide Counted;
    AuditTrailThroughout(x, seeds, taken, x.config.generations);
    CountedThroughout(x, seeds, taken, x.config.generations);
    var run := x.Reach(seeds, taken, x.config.generations);
    TrailAtStart(x, taken);
    forall i: nat
      ensures (x.config.experimentId, i) in KeysOf(run.state.records) <==> i < |run.state.records|
    {
      TrailKeys(x, taken, run.state.records, i);
    }
    if run.error.None? {
      CountedRecords(x, run.state, x.config.generations);
    }
  }

  lemma CountedRecords(x: Experiment, s: RunState, g: nat)
    requires 0 < x.config.batchSize && Counted(x, s, g)
    ensures |s.records| == |s.trials|
  {
  }

  // ----- a record that fails its own checks ends the run

  lemma AuditStopsAtInvalid(x: Experiment, taken: set<Key>, before: seq<TrialRecord>, items: seq<TrialRecord>, k: nat)
    requires k < |items| && !items[k].Valid(x.sha256)
    requires x.Audited(taken, before, items[..k]).1.None?
    ensures x.Audited(taken, before, items) == (before + items[..k], Some(InvalidRecord))
  {
    hide TrialRecord.Valid, KeysOf;
    AuditedIsPrefix(x, taken, before, items[..k]);
    assert items[..k][..k] == items[..k];
    assert items[..k + 1][..k] == items[..k];
    x.AuditFailureStays(taken, before, items, k + 1);
  }

  /** If the records before it are accepted, the first record of a generation that fails its
      checks ends the run there, after the evaluation, with those before it in the ledger. */
  lemma InvalidRecordEndsRun(x: Experiment, seeds: seq<CandidateProgram>, taken: set<Key>, g: nat, k: nat)
    requires seeds != [] && g < x.config.generations
    requires var before := x.Reach(seeds, taken, g);
             && before.error.None? && |before.state.trials| < x.config.evaluationBudget
             && x.Evaluated(seeds, before.state, g).Success?
             && var next, first := x.Evaluated(seeds, before.state, g).value, |before.state.trials|;
                var items := x.NewRecords(next.trials, next.evaluations, next.scores, first);
                && k < |items| && !items[k].Valid(x.sha256)
                && x.Audited(taken, before.state.records, items[..k]).1.None?
    ensures var before := x.Reach(seeds, taken, g);
            var next, first := x.Evaluated(seeds, before.state, g).value, |before.state.trials|;
            var items := x.NewRecords(next.trials, next.evaluations, next.scores, first);
            x.Outcome(seeds, taken) == (Failure(InvalidRecord), before.state.records + items[..k])
  {
    hide Experiment.Evaluated, Experiment.Audited, Experiment.NewRecords, TrialRecord.Valid, Experiment.SelectParents;
    var before := x.Reach(seeds, taken, g);
    var next, first := x.Evaluated(seeds, before.state, g).value, |before.state.trials|;
    AuditStopsAtInvalid(x, taken, before.state.records, x.NewRecords(next.trials, next.evaluations, next.scores, first), k);
    x.RunSettles(seeds, taken, g + 1, x.config.generations);
  }

  // ----- what a finished run has used

  predicate UsesItsBudget(config: ExperimentConfig, r: ExperimentResult)
    requires 0 < config.batchSize
  {
    && r.config == config
    && |r.records| == r.EvaluationsUsed()
    && r.EvaluationsUsed() == Least(config.evaluationBudget, config.generations * config.batchSize)
    && r.generationsCompleted == Least(config.generations, CeilDiv(config.evaluationBudget, config.batchSize))
    && (r.stopReason.EvaluationBudget? <==> config.evaluationBudget <= config.generations * config.batchSize)
    && (forall i :: 0 <= i < |r.outcomes| ==> TrialAt(config, r.outcomes[i].trial, i))
    && (forall i :: 0 <= i < |r.records| ==>
          RecordAt(config, r.records[i], r.outcomes[i].trial, r.outcomes[i].evaluation, i))
  }

  /** A run that finishes spent min(budget, generations x batch size) evaluations in the
      fewest generations that can hold them, and stopped on the budget exactly when the
      generations could spend it. */
  lemma FinishedRunCounts(x: Experiment, seeds: seq<CandidateProgram>, taken: set<Key>)
    requires x.config.Valid()
    requires x.Outcome(seeds, taken).0.Success?
    ensures UsesItsBudget(x.config, x.Outcome(seeds, taken).0.value)
  {
    hide TrialAt, RecordAt, CeilDiv, Experiment.Reach;
    CountedThroughout(x, seeds, taken, x.config.generations);
    var s := x.Reach(seeds, taken, x.config.generations).state;
    assert forall i :: 0 <= i < |s.trials| ==>
      s.Outcomes()[i].trial == s.trials[i] && s.Outcomes()[i].evaluation == s.evaluations[i];
  }

  // ----- the ranking

  lemma QuotientMonotone(b: nat, i: nat, j: nat)
    requires 0 < b && i <= j
    ensures i / b <= j / b
  {
    if j / b < i / b {
      MulBounds(b, j / b + 1, i / b);
    }
  }

  lemma IdsInOrder(config: ExperimentConfig, i: nat, j: nat)
    requires 0 < config.batchSize && i < j < 1_000_000
    requires GenerationOf(config, j) < 10_000
    ensures var p := CandidateId(config.experimentId, GenerationOf(config, i), i);
            var q := CandidateId(config.experimentId, GenerationOf(config, j), j);
            p != q && Text.Less(p, q)
  {
    hide CandidateId, Text.Less;
    QuotientMonotone(config.batchSize, i, j);
    IdOrder(config.experimentId, GenerationOf(config, i), i, GenerationOf(config, j), j);
  }

  /** Trials of one state have ids that sort as they were proposed. */
  lemma OutcomeIds(x: Experiment, s: RunState, g: nat, i: nat, j: nat)
    requires x.config.Valid() && g <= x.config.generations
    requires Counted(x, s, g) && i < j < |s.trials|
    ensures s.trials[i].candidateId != s.trials[j].candidateId
    ensures Text.Less(s.trials[i].candidateId, s.trials[j].candidateId)
  {
    hide CandidateId, Text.Less, RecordAt, IsIdentifier;
    QuotientBelow(x.config.batchSize, g, j);
    assert TrialAt(x.config, s.trials[i], i) && TrialAt(x.config, s.trials[j], j);
    IdsInOrder(x.config, i, j);
  }

  predicate SameMerit(a: CandidateOutcome, b: CandidateOutcome) {
    && a.score.score.reward == b.score.score.reward
    && a.score.score.passed == b.score.score.passed
    && a.score.score.validity == b.score.score.validity
  }

  /** In every state a run reaches, the ranking is the only strictly ordered permutation of
      the outcomes, and of two equally good candidates the earlier proposal ranks first. */
  lemma RankingIsDetermined(x: Experiment, seeds: seq<CandidateProgram>, taken: set<Key>, g: nat,
                            other: seq<CandidateOutcome>)
    requires x.config.Valid() && g <= x.config.generations
    requires x.Reach(seeds, taken, g).error.None?
    ensures var outcomes := x.Reach(seeds, taken, g).state.Outcomes();
            var ranked := Ranked(outcomes, StandingOf);
            && StrictlyRanked(ranked, StandingOf) && multiset(ranked) == multiset(outcomes)
            && (StrictlyRanked(other, StandingOf) && multiset(other) == multiset(outcomes) ==> other == ranked)
            && (forall i, j :: 0 <= i < j < |outcomes| && SameMerit(outcomes[i], outcomes[j]) ==>
                  Before(StandingOf(outcomes[i]), StandingOf(outcomes[j])))
  {
    hide Counted, Text.Less, Ranked, Experiment.Reach, CandidateId;
    CountedThroughout(x, seeds, taken, g);
    var s := x.Reach(seeds, taken, g).state;
    var outcomes := s.Outcomes();
    forall i, j | 0 <= i < j < |outcomes|
      ensures StandingOf(outcomes[i]).candidateId != StandingOf(outcomes[j]).candidateId
      ensures Text.Less(StandingOf(outcomes[i]).candidateId, StandingOf(outcomes[j]).candidateId)
    {
      OutcomeIds(x, s, g, i, j);
    }
    RankedIsUnique(outcomes, StandingOf, other);
  }

  /** The parents held are the leading programs of a ranking. */
  predicate Leading(x: Experiment, parents: seq<LocalEvolver.ParentCandidate>, ranked: seq<CandidateOutcome>) {
    && |parents| == Least(x.config.eliteCount, |ranked|)
    && (forall i :: 0 <= i < |parents| ==> parents[i].program == ranked[i].trial.proposal.program)
    && (forall i, j :: 0 <= i < |parents| <= j < |ranked| ==>
          Before(StandingOf(ranked[i]), StandingOf(ranked[j])))
  }

  /** The parents after a generation are the programs at the head of that ranking, as many
      as the elite count allows, so no trial left out ranks before one taken. */
  lemma {:induction false} ParentsLead(x: Experiment, seeds: seq<CandidateProgram>, taken: set<Key>, g: nat)
    requires x.config.Valid() && 1 <= g <= x.config.generations
    requires x.Reach(seeds, taken, g).error.None?
    ensures var s := x.Reach(seeds, taken, g).state;
            Leading(x, s.parents, Ranked(s.Outcomes(), StandingOf))
  {
    hide Leading, Experiment.Generation, Ranked;
    var before := x.Reach(seeds, taken, g - 1);
    if x.config.evaluationBudget <= |before.state.trials| {
      assert g != 1;
      ParentsLead(x, seeds, taken, g - 1);
    } else {
      var s := x.Reach(seeds, taken, g).state;
      RankingIsDetermined(x, seeds, taken, g, []);
      ParentsOfGeneration(x, seeds, taken, before.state, g - 1);
      SelectedLead(x, s);
    }
  }

  lemma ParentsOfGeneration(x: Experiment, seeds: seq<CandidateProgram>, taken: set<Key>, s: RunState, g: nat)
    requires s.Aligned() && x.Generation(seeds, taken, s, g).error.None?
    ensures var next := x.Generation(seeds, taken, s, g).state; next.parents == x.SelectParents(next)
  {
    hide Experiment.Evaluated, Experiment.Audited, Ranked;
    var next := x.Evaluated(seeds, s, g).value;
    assert x.Generation(seeds, taken, s, g).state.Outcomes() == next.Outcomes();
  }

  lemma SelectedLead(x: Experiment, s: RunState)
    requires s.Aligned() && StrictlyRanked(Ranked(s.Outcomes(), StandingOf), StandingOf)
    ensures Leading(x, x.SelectParents(s), Ranked(s.Outcomes(), StandingOf))
  {
    hide Ranked, Before;
  }
}
