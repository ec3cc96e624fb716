/** A run from the command line: open the ledger file, refuse a repeated experiment id, run,
    and leave a file that reads back. */
module DurableRun {
  import opened Wrappers
  import opened Executors
  import opened Ledger
  import opened Experiments
  import Counts = ExperimentProperties

  datatype DurableError = BadLedger(error: LedgerError) | AlreadyRecorded | RunFailed(reason: ExperimentError)

  function Reported(outcome: Result<ExperimentResult, ExperimentError>): Result<ExperimentResult, DurableError> {
    match outcome
    case Success(result) => Success(result)
    case Failure(reason) => Failure(RunFailed(reason))
  }

  predicate Mentions(records: seq<TrialRecord>, experimentId: string) {
    exists i :: 0 <= i < |records| && records[i].experimentId == experimentId
  }

  /** The ledger file after a run, whether it finished or not: everything that was there, then
      one line per evaluated candidate of this experiment, in order, each passing its checks;
      if those lines decode to what was encoded, the file reads back as both together. */
  ghost predicate Extended(x: Experiment, codec: Codec, before: seq<TrialRecord>, records: seq<TrialRecord>,
                           was: seq<string>, now: seq<string>)
  {
    && now == was + Encoded(codec, records)
    && Counts.AuditTrail(x, KeysOf(before), records)
    && ((forall i :: 0 <= i < |records| ==> codec.RoundTrips(records[i])) ==>
          Parsed(now, codec) == Success(before + records))
  }

  method RunDurably(x: Experiment, file: JsonlFile, codec: Codec, seeds: seq<CandidateProgram>)
    returns (r: Result<ExperimentResult, DurableError>, ghost records: seq<TrialRecord>)
    requires x.config.Valid()
    modifies file
    ensures match Parsed(old(file.lines), codec)
            case Failure(error) => r == Failure(BadLedger(error)) && file.lines == old(file.lines)
            case Success(before) =>
              if Mentions(before, x.config.experimentId) then
                r == Failure(AlreadyRecorded) && file.lines == old(file.lines)
              else
                && Extended(x, codec, before, records, old(file.lines), file.lines)
                && records == x.Outcome(seeds, KeysOf(before)).1
                && r == Reported(x.Outcome(seeds, KeysOf(before)).0)
                && r != Failure(RunFailed(DuplicateRecord))
                && (r.Success? ==> records == r.value.records)
  {
    hide Counts.AuditTrail, Experiment.Outcome, KeysOf, Encoded;
    records := [];
    var ledger := new JsonlLedger(file, codec);
    var failed := ledger.LoadExisting();
    if failed.Some? {
      return Failure(BadLedger(failed.value)), records;
    }
    ghost var before := Parsed(file.lines, codec).value;
    KeysMention(before, x.config.experimentId);
    var repeated := ledger.HasExperiment(x.config.experimentId);
    if repeated {
      return Failure(AlreadyRecorded), records;
    }
    var runner := new ExperimentRunner(x, OnDisk(ledger));
    var result := runner.Run(seeds);
    records := x.Outcome(seeds, KeysOf(before)).1;
    assert ledger.appended == records;
    OutcomeTrail(x, seeds, KeysOf(before));
    Counts.FreshExperimentIsRecorded(x, seeds, KeysOf(before));
    TrailIsNew(x, KeysOf(before), records);
    if forall i :: 0 <= i < |records| ==> codec.RoundTrips(records[i]) {
      ReopeningReadsBack(ledger.base, codec, records);
    }
    if result.Failure? {
      return Failure(RunFailed(result.error)), records;
    }
    return Success(result.value), records;
  }

  lemma KeysMention(records: seq<TrialRecord>, experimentId: string)
    ensures Mentions(records, experimentId) <==> exists index: nat :: (experimentId, index) in KeysOf(records)
  {
    if Mentions(records, experimentId) {
      var i :| 0 <= i < |records| && records[i].experimentId == experimentId;
      assert records[i].Key() in KeysOf(records);
      assert (experimentId, records[i].evaluationIndex) in KeysOf(records);
    }
  }

  lemma OutcomeTrail(x: Experiment, seeds: seq<CandidateProgram>, taken: set<Key>)
    requires x.config.Valid()
    ensures Counts.AuditTrail(x, taken, x.Outcome(seeds, taken).1)
  {
    Counts.AuditTrailThroughout(x, seeds, taken, x.config.generations);
  }

  lemma TrailIsNew(x: Experiment, taken: set<Key>, records: seq<TrialRecord>)
    requires Counts.AuditTrail(x, taken, records)
    ensures NewKeys(taken, records)
  {
  }
}
