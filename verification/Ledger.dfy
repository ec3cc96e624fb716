/** Append-only audit ledgers: one record per experiment and evaluation index, ever. */
module Ledger {
  import opened Wrappers
  import opened Vectors
  import opened Executors
  import Text
  import Backtest

  type Key = (string, nat)

  datatype TrialRecord = TrialRecord(
    experimentId: string,
    candidateId: string,
    evaluationIndex: nat,
    generation: nat,
    programSha256: string,
    programSource: string,
    parentSha256: seq<string>,
    origin: string,
    mutation: string,
    reward: real,
    passed: bool,
    validity: real,
    trialCount: int,
    sourceBytes: nat,
    astNodes: nat,
    metrics: map<string, real>,
    error: Backtest.EvaluationError,
    windowStatuses: seq<SandboxStatus>,
    windowDurations: seq<real>,
    totalDuration: real,
    stdoutBytes: nat,
    stderrBytes: nat)
  {
    function Key(): Key {
      (experimentId, evaluationIndex)
    }

    /** The model's field bounds and its consistency validator. */
    predicate Valid(sha256: string -> string) {
      && 1 <= |experimentId| <= 128
      && 1 <= |candidateId| <= 256
      && IsDigest(programSha256)
      && 1 <= |programSource| <= 131_072
      && 1 <= |origin| <= 128
      && 1 <= |mutation| <= 512
      && 0.0 <= validity <= 1.0
      && 1 <= trialCount
      && 0.0 <= totalDuration
      && (forall i :: 0 <= i < |windowDurations| ==> 0.0 <= windowDurations[i])
      && (forall i :: 0 <= i < |parentSha256| ==> IsDigest(parentSha256[i]))
      && sha256(programSource) == programSha256
      && |windowStatuses| == |windowDurations|
      && IsClose(totalDuration, Sum(windowDurations))
      && MetricsAgree(metrics, reward, trialCount)
    }
  }

  predicate MetricsAgree(metrics: map<string, real>, reward: real, trialCount: int) {
    && ("reward" in metrics ==> metrics["reward"] == reward)
    && ("trial_count" in metrics ==> metrics["trial_count"] == trialCount as real)
  }

  predicate IsDigest(s: string) {
    |s| == 64 && forall i :: 0 <= i < |s| ==> '0' <= s[i] <= '9' || 'a' <= s[i] <= 'f'
  }

  predicate IsClose(a: real, b: real) {
    var tolerance := 0.000000000001;
    Abs(a - b) <= Max(tolerance * Max(Abs(a), Abs(b)), tolerance)
  }

  function KeysOf(records: seq<TrialRecord>): set<Key> {
    set i | 0 <= i < |records| :: records[i].Key()
  }

  lemma KeysOfConcat(a: seq<TrialRecord>, b: seq<TrialRecord>)
    ensures KeysOf(a + b) == KeysOf(a) + KeysOf(b)
  {
    forall key | key in KeysOf(a) + KeysOf(b)
      ensures key in KeysOf(a + b)
    {
      if key in KeysOf(a) {
        var i :| 0 <= i < |a| && a[i].Key() == key;
        assert (a + b)[i].Key() == key;
      } else {
        var i :| 0 <= i < |b| && b[i].Key() == key;
        assert (a + b)[|a| + i].Key() == key;
      }
    }
  }

  lemma KeysOfAppend(records: seq<TrialRecord>, record: TrialRecord)
    ensures KeysOf(records + [record]) == KeysOf(records) + {record.Key()}
  {
    KeysOfConcat(records, [record]);
    assert KeysOf([record]) == {record.Key()} by {
      assert [record][0].Key() in KeysOf([record]);
    }
  }

  datatype LedgerError = DuplicateIndex | UnreadableLine(number: nat) | DuplicateLine(number: nat)

  class MemoryLedger {
    var records: seq<TrialRecord>
    var keys: set<Key>

    ghost predicate Valid()
      reads this
    {
      keys == KeysOf(records)
    }

    constructor ()
      ensures Valid() && records == [] && keys == {}
    {
      records, keys := [], {};
    }

    method Append(record: TrialRecord) returns (error: Option<LedgerError>)
      requires Valid()
      modifies this
      ensures Valid()
      ensures error == if record.Key() in old(keys) then Some(DuplicateIndex) else None
      ensures records == if error.None? then old(records) + [record] else old(records)
      ensures keys == if error.None? then old(keys) + {record.Key()} else old(keys)
    {
      if record.Key() in keys {
        return Some(DuplicateIndex);
      }
      KeysOfAppend(records, record);
      keys := keys + {record.Key()};
      records := records + [record];
      return None;
    }
  }

  // ----- the durable ledger

  /** Record text: one JSON line per record. */
  datatype Codec = Codec(encode: TrialRecord -> string, decode: string -> Option<TrialRecord>) {
    predicate RoundTrips(record: TrialRecord) {
      decode(encode(record)) == Some(record) && !Blank(encode(record)) && OneLine(encode(record))
    }
  }

  /** Text that reading a file line by line gives back as one line. */
  predicate OneLine(text: string) {
    forall i :: 0 <= i < |text| ==> text[i] != '\n' && text[i] != '\r'
  }

  predicate Blank(line: string) {
    Text.Strip(line) == ""
  }

  /** The records of a file, or the complaint about its first bad line. */
  function Parsed(lines: seq<string>, codec: Codec): Result<seq<TrialRecord>, LedgerError> {
    if lines == [] then Success([])
    else
      var n := |lines| - 1;
      match Parsed(lines[..n], codec)
      case Failure(error) => Failure(error)
      case Success(records) =>
        if Blank(lines[n]) then Success(records)
        else match codec.decode(lines[n])
          case None => Failure(UnreadableLine(n + 1))
          case Some(record) =>
            if record.Key() in KeysOf(records) then Failure(DuplicateLine(n + 1))
            else Success(records + [record])
  }

  lemma {:induction false} ParseFailureStays(lines: seq<string>, codec: Codec, k: nat)
    requires k <= |lines| && Parsed(lines[..k], codec).Failure?
    ensures Parsed(lines, codec) == Parsed(lines[..k], codec)
  {
    if k == |lines| {
      assert lines[..k] == lines;
    } else {
      var n := |lines| - 1;
      assert lines[..n][..k] == lines[..k];
      ParseFailureStays(lines[..n], codec, k);
    }
  }

  /** These are the lines that hold the records, in order; every other line is blank, and no
      two records share a key. */
  ghost predicate ReadsAs(lines: seq<string>, codec: Codec, records: seq<TrialRecord>, at: seq<nat>) {
    && |at| == |records|
    && (forall j :: 0 <= j < |at| ==>
          at[j] < |lines| && !Blank(lines[at[j]]) && codec.decode(lines[at[j]]) == Some(records[j]))
    && (forall i, j :: 0 <= i < j < |at| ==> at[i] < at[j] && records[i].Key() != records[j].Key())
    && (forall i :: 0 <= i < |lines| && i !in at ==> Blank(lines[i]))
  }

  /** Line k, numbered from one, is the first that cannot be kept: what comes before reads as
      some records, and it decodes to none or repeats the key of one of them. */
  ghost predicate FirstBadLine(lines: seq<string>, codec: Codec, records: seq<TrialRecord>, at: seq<nat>, k: nat,
                               error: LedgerError)
  {
    && k < |lines| && ReadsAs(lines[..k], codec, records, at) && !Blank(lines[k])
    && match error
       case UnreadableLine(number) => number == k + 1 && codec.decode(lines[k]).None?
       case DuplicateLine(number) =>
         && number == k + 1 && codec.decode(lines[k]).Some?
         && exists j :: 0 <= j < |records| && records[j].Key() == codec.decode(lines[k]).value.Key()
       case DuplicateIndex => false
  }

  lemma BlankPassed(lines: seq<string>, codec: Codec, records: seq<TrialRecord>, at: seq<nat>, line: string)
    requires ReadsAs(lines, codec, records, at) && Blank(line)
    ensures ReadsAs(lines + [line], codec, records, at)
  {
    hide Blank;
  }

  lemma RecordTaken(lines: seq<string>, codec: Codec, records: seq<TrialRecord>, at: seq<nat>, line: string,
                    record: TrialRecord)
    requires ReadsAs(lines, codec, records, at) && !Blank(line) && codec.decode(line) == Some(record)
    requires record.Key() !in KeysOf(records)
    ensures ReadsAs(lines + [line], codec, records + [record], at + [|lines|])
  {
    hide Blank, TrialRecord.Key;
    var all, more := lines + [line], at + [|lines|];
    assert more[|at|] == |lines| && all[|lines|] == line;
    forall j | 0 <= j < |records|
      ensures records[j].Key() != record.Key()
    {
      assert records[j].Key() in KeysOf(records);
    }
    hide KeysOf;
    forall i | 0 <= i < |all| && i !in more
      ensures Blank(all[i])
    {
      assert i != |lines| && i !in at;
    }
  }

  /** What reading a file yields: its records line by line, or its first bad line. */
  lemma {:induction false} ParsedReads(lines: seq<string>, codec: Codec)
    returns (records: seq<TrialRecord>, at: seq<nat>, k: nat)
    ensures match Parsed(lines, codec)
            case Success(parsed) => records == parsed && ReadsAs(lines, codec, records, at)
            case Failure(error) => FirstBadLine(lines, codec, records, at, k, error)
  {
    hide Blank, ReadsAs, TrialRecord.Key;
    if lines == [] {
      records, at, k := [], [], 0;
      NothingReads(codec);
    } else {
      var n := |lines| - 1;
      records, at, k := ParsedReads(lines[..n], codec);
      assert lines == lines[..n] + [lines[n]];
      if Parsed(lines[..n], codec).Failure? {
        assert lines[..n][..k] == lines[..k];
      } else if Blank(lines[n]) {
        BlankPassed(lines[..n], codec, records, at, lines[n]);
      } else {
        k := n;
        var record := codec.decode(lines[n]);
        if record.Some? && record.value.Key() !in KeysOf(records) {
          RecordTaken(lines[..n], codec, records, at, lines[n], record.value);
          records, at := records + [record.value], at + [n];
        }
      }
    }
  }

  lemma NothingReads(codec: Codec)
    ensures ReadsAs([], codec, [], [])
  {
  }

  class JsonlFile {
    var lines: seq<string>

    constructor (lines: seq<string>)
      ensures this.lines == lines
    {
      this.lines := lines;
    }
  }

  ghost function Encoded(codec: Codec, records: seq<TrialRecord>): seq<string> {
    seq(|records|, i requires 0 <= i < |records| => codec.encode(records[i]))
  }

  /** No two records of a sequence share a key, nor a key with an earlier ledger. */
  ghost predicate NewKeys(before: set<Key>, records: seq<TrialRecord>) {
    && (forall i :: 0 <= i < |records| ==> records[i].Key() !in before)
    && (forall i, j :: 0 <= i < j < |records| ==> records[i].Key() != records[j].Key())
  }

  class JsonlLedger {
    const file: JsonlFile
    const codec: Codec
    var keys: set<Key>
    ghost const base: seq<string>
    ghost var appended: seq<TrialRecord>

    /** The file holds what was there when the ledger was opened, then one line per record. */
    ghost predicate Valid()
      reads this, file
    {
      && file.lines == base + Encoded(codec, appended)
      && Parsed(base, codec).Success?
      && keys == KeysOf(Parsed(base, codec).value) + KeysOf(appended)
      && NewKeys(KeysOf(Parsed(base, codec).value), appended)
    }

    /** Attaches to an existing file; the keys are loaded by LoadExisting. */
    constructor (file: JsonlFile, codec: Codec)
      ensures this.file == file && this.codec == codec
      ensures keys == {} && appended == [] && base == file.lines
    {
      this.file, this.codec, keys := file, codec, {};
      appended, base := [], file.lines;
    }

    method LoadExisting() returns (error: Option<LedgerError>)
      requires keys == {} && appended == [] && base == file.lines
      modifies this`keys
      ensures error == match Parsed(file.lines, codec)
                       case Failure(e) => Some(e)
                       case Success(_) => None
      ensures error.None? ==> Valid() && keys == KeysOf(Parsed(file.lines, codec).value)
    {
      ghost var records := [];
      for i := 0 to |file.lines|
        invariant Parsed(file.lines[..i], codec) == Success(records)
        invariant keys == KeysOf(records)
      {
        assert file.lines[..i + 1][..i] == file.lines[..i];
        var line := file.lines[i];
        if Blank(line) {
          continue;
        }
        var record := codec.decode(line);
        if record.None? {
          ParseFailureStays(file.lines, codec, i + 1);
          return Some(UnreadableLine(i + 1));
        }
        if record.value.Key() in keys {
          ParseFailureStays(file.lines, codec, i + 1);
          return Some(DuplicateLine(i + 1));
        }
        KeysOfAppend(records, record.value);
        keys := keys + {record.value.Key()};
        records := records + [record.value];
      }
      assert file.lines[..|file.lines|] == file.lines;
      assert Encoded(codec, []) == [];
      return None;
    }

    method HasExperiment(experimentId: string) returns (found: bool)
      ensures found <==> exists index :: (experimentId, index) in keys
    {
      found := exists key :: key in keys && key.0 == experimentId;
      if found {
        var key :| key in keys && key.0 == experimentId;
        assert key == (experimentId, key.1);
      }
    }

    method Append(record: TrialRecord) returns (error: Option<LedgerError>)
      requires Valid()
      modifies this, file
      ensures Valid()
      ensures error == if record.Key() in old(keys) then Some(DuplicateIndex) else None
      ensures appended == if error.None? then old(appended) + [record] else old(appended)
      ensures keys == if error.None? then old(keys) + {record.Key()} else old(keys)
      ensures file.lines == if error.None? then old(file.lines) + [codec.encode(record)] else old(file.lines)
    {
      if record.Key() in keys {
        return Some(DuplicateIndex);
      }
      KeysOfAppend(appended, record);
      assert forall i :: 0 <= i < |appended| ==> appended[i].Key() in KeysOf(appended);
      file.lines := file.lines + [codec.encode(record)];
      keys := keys + {record.Key()};
      appended := appended + [record];
      assert Encoded(codec, appended) == Encoded(codec, old(appended)) + [codec.encode(record)];
      return None;
    }
  }

  lemma NotAmongKeys(records: seq<TrialRecord>, key: Key)
    requires forall i :: 0 <= i < |records| ==> records[i].Key() != key
    ensures key !in KeysOf(records)
  {
  }

  lemma ParsedNext(lines: seq<string>, codec: Codec, records: seq<TrialRecord>, record: TrialRecord)
    requires Parsed(lines, codec) == Success(records)
    requires codec.RoundTrips(record) && record.Key() !in KeysOf(records)
    ensures Parsed(lines + [codec.encode(record)], codec) == Success(records + [record])
  {
    hide KeysOf, Blank;
    var all := lines + [codec.encode(record)];
    assert all[..|all| - 1] == lines;
  }

  /** Reopening a file to which records with new keys were appended reads back the records
      that were there followed by exactly those, provided each survives its encoding. */
  lemma {:induction false} ReopeningReadsBack(base: seq<string>, codec: Codec, records: seq<TrialRecord>)
    requires Parsed(base, codec).Success?
    requires NewKeys(KeysOf(Parsed(base, codec).value), records)
    requires forall i :: 0 <= i < |records| ==> codec.RoundTrips(records[i])
    ensures Parsed(base + Encoded(codec, records), codec) == Success(Parsed(base, codec).value + records)
  {
    hide KeysOf, Parsed;
    var read := Parsed(base, codec).value;
    if records == [] {
      assert base + Encoded(codec, records) == base;
      assert read + records == read;
    } else {
      var n := |records| - 1;
      var lines := base + Encoded(codec, records[..n]);
      ReopeningReadsBack(base, codec, records[..n]);
      KeysOfConcat(read, records[..n]);
      NotAmongKeys(records[..n], records[n].Key());
      ParsedNext(lines, codec, read + records[..n], records[n]);
      assert base + Encoded(codec, records) == lines + [codec.encode(records[n])];
      assert read + records[..n] + [records[n]] == read + records;
    }
  }

  /** Opening the file of a ledger again, however much was appended, yields the same keys. */
  method Reopen(ledger: JsonlLedger) returns (again: JsonlLedger, error: Option<LedgerError>)
    requires ledger.Valid()
    requires forall i :: 0 <= i < |ledger.appended| ==> ledger.codec.RoundTrips(ledger.appended[i])
    ensures fresh(again) && again.file == ledger.file
    ensures error.None? && again.Valid() && again.keys == ledger.keys
    ensures ledger.file.lines == old(ledger.file.lines)
  {
    ReopeningReadsBack(ledger.base, ledger.codec, ledger.appended);
    KeysOfConcat(Parsed(ledger.base, ledger.codec).value, ledger.appended);
    again := new JsonlLedger(ledger.file, ledger.codec);
    error := again.LoadExisting();
    assert Encoded(again.codec, []) == [];
    assert KeysOf([]) == {};
  }

  // ----- either ledger

  datatype TrialLedger = InMemory(memory: MemoryLedger) | OnDisk(disk: JsonlLedger) {
    ghost function Repr(): set<object> {
      match this
      case InMemory(memory) => {memory}
      case OnDisk(disk) => {disk, disk.file}
    }

    ghost predicate Valid()
      reads Repr()
    {
      match this
      case InMemory(memory) => memory.Valid()
      case OnDisk(disk) => disk.Valid()
    }

    ghost function Keys(): set<Key>
      reads Repr()
    {
      match this
      case InMemory(memory) => memory.keys
      case OnDisk(disk) => disk.keys
    }

    /** The records appended through this object, oldest first. */
    ghost function Records(): seq<TrialRecord>
      reads Repr()
    {
      match this
      case InMemory(memory) => memory.records
      case OnDisk(disk) => disk.appended
    }

    method Append(record: TrialRecord) returns (error: Option<LedgerError>)
      requires Valid()
      modifies Repr()
      ensures Valid()
      ensures error == if record.Key() in old(Keys()) then Some(DuplicateIndex) else None
      ensures Records() == if error.None? then old(Records()) + [record] else old(Records())
      ensures Keys() == if error.None? then old(Keys()) + {record.Key()} else old(Keys())
    {
      match this {
        case InMemory(memory) => error := memory.Append(record);
        case OnDisk(disk) => error := disk.Append(record);
      }
    }
  }
}
