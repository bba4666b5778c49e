/** The pipeline of `main` (main.py:90-108): read, validate, write, stopping
    at the first stage that fails; any failure ends the process with exit
    status 1. Reading is foreign (S3 and CSV parsing) and enters as its
    result; the columnar writer and the object store enter as parameters. */
module Pipeline {
  import opened Wrappers
  import opened Decimal
  import opened Transactions
  import opened Validation
  import opened Partitioning
  import opened Upload

  /** The key prefix the pipeline uploads under (`OUTPUT_PREFIX`). */
  const OutputPrefix: string := "transactions"

  /** Why loading failed: the object could not be fetched, or its text is not a table. */
  datatype LoadError = SourceUnavailable | ParseError

  /** Why writing failed: converting or staging the partitions raised
      (`pa.Table.from_pandas`, `os.makedirs`, `pq.write_to_dataset`), an
      upload raised for the key given, or removing the staging directory
      (`shutil.rmtree`) raised after every upload succeeded. */
  datatype WriteError = StagingFailed | UploadFailed(key: string) | CleanupFailed

  datatype PipelineError =
    | LoadFailed(load: LoadError)
    | ValidationFailed(reason: ValidationError)
    | WriteFailed(write: WriteError)

  /** The outcome of one run and the keys uploaded before it ended. */
  datatype RunReport = RunReport(outcome: Result<(), PipelineError>, uploaded: seq<string>) {
    /** `sys.exit(1)` on any failure, a normal return otherwise. */
    function ExitStatus(): (status: int)
      ensures status == 0 || status == 1
    {
      if outcome.Success? then 0 else 1
    }
  }

  /** The outcome of `write_parquet_to_s3` and the keys it uploaded. */
  datatype WriteReport = WriteReport(outcome: Result<(), WriteError>, uploaded: seq<string>)

  /** The columnar writer followed by the walk of its staging directory:
      given the groups, the files found there, or `None` when conversion,
      directory creation or the partitioned write raised. */
  type Stager = map<PartitionKey, seq<KeyedRow>> -> Option<seq<StagedFile>>

  /** The staging directory holds files of the given partitions only. */
  predicate FaithfulStaging(groups: map<PartitionKey, seq<KeyedRow>>, files: seq<StagedFile>) {
    forall i | 0 <= i < |files| :: files[i].key in groups
  }

  /** `write_parquet_to_s3` without its I/O: partition, stage, upload in walk
      order, then remove the staging directory; `cleaned` says whether that
      removal succeeds. */
  function Write(rows: seq<Row>, prefix: string, stage: Stager, ok: string -> bool, cleaned: bool)
    : (r: WriteReport)
    // a staging failure comes before any upload
    ensures stage(Partition(rows)).None? ==> r == WriteReport(Failure(StagingFailed), [])
    ensures r.outcome == Failure(StagingFailed) <==> stage(Partition(rows)).None?
    ensures stage(Partition(rows)).Some? ==> r.uploaded <= UploadKeys(prefix, stage(Partition(rows)).value)
    // only keys the store accepted are reported uploaded
    ensures forall i | 0 <= i < |r.uploaded| :: ok(r.uploaded[i])
    // success: everything staged was uploaded and the directory removed
    ensures r.outcome.Success? <==>
              && stage(Partition(rows)).Some?
              && r.uploaded == UploadKeys(prefix, stage(Partition(rows)).value)
              && cleaned
    // a failed removal still fails the write, after every upload went through
    ensures r.outcome == Failure(CleanupFailed) <==>
              && stage(Partition(rows)).Some?
              && r.uploaded == UploadKeys(prefix, stage(Partition(rows)).value)
              && !cleaned
  {
    match stage(Partition(rows))
    case None => WriteReport(Failure(StagingFailed), [])
    case Some(files) =>
      var report := UploadAll(UploadKeys(prefix, files), ok);
      if report.failed.Some? then WriteReport(Failure(UploadFailed(report.failed.value)), report.uploaded)
      else if !cleaned then WriteReport(Failure(CleanupFailed), report.uploaded)
      else WriteReport(Success(()), report.uploaded)
  }

  /** One run of the pipeline over the loader's result. */
  function Run(loaded: Result<seq<RawRow>, LoadError>, whitelist: set<string>, parse: TimestampParser,
               prefix: string, stage: Stager, ok: string -> bool, cleaned: bool): (r: RunReport)
    // a failed load ends the run before anything else
    ensures loaded.Failure? ==> r == RunReport(Failure(LoadFailed(loaded.error)), [])
    // a rejected dataset ends the run with the validator's reason and no upload
    ensures loaded.Success? && !AllComplete(loaded.value) ==>
              r == RunReport(Failure(ValidationFailed(Incomplete)), [])
    ensures loaded.Success? && AllComplete(loaded.value) && !AllWhitelisted(loaded.value, whitelist) ==>
              r == RunReport(Failure(ValidationFailed(InvalidCurrency)), [])
    ensures loaded.Success? && AllComplete(loaded.value) && AllWhitelisted(loaded.value, whitelist)
            && !AllParse(loaded.value, parse) ==>
              r == RunReport(Failure(ValidationFailed(InvalidTimestamp)), [])
    // writing is reached only after validation succeeded
    ensures |r.uploaded| > 0 ==> loaded.Success? && Validate(loaded.value, whitelist, parse).Success?
    ensures r.outcome.Failure? && r.outcome.error.WriteFailed? ==>
              loaded.Success? && Validate(loaded.value, whitelist, parse).Success?
    // what is uploaded is a leading part of the keys of the staged parquet files
    ensures loaded.Success? && Validate(loaded.value, whitelist, parse).Success? ==>
              var staged := stage(Partition(Validate(loaded.value, whitelist, parse).value));
              && (staged.None? ==> r == RunReport(Failure(WriteFailed(StagingFailed)), []))
              && (staged.Some? ==> r.uploaded <= UploadKeys(prefix, staged.value))
    // success means every staged parquet file was uploaded and the staging directory removed
    ensures r.ExitStatus() == 0 ==>
              && loaded.Success?
              && Validate(loaded.value, whitelist, parse).Success?
              && stage(Partition(Validate(loaded.value, whitelist, parse).value)).Some?
              && r.uploaded == UploadKeys(prefix, stage(Partition(Validate(loaded.value, whitelist, parse).value)).value)
              && cleaned
  {
    match loaded
    case Failure(e) => RunReport(Failure(LoadFailed(e)), [])
    case Success(raw) =>
      match Validate(raw, whitelist, parse)
      case Failure(e) => RunReport(Failure(ValidationFailed(e)), [])
      case Success(rows) => WriteOutcome(Write(rows, prefix, stage, ok, cleaned))
  }

  /** A write's report as the run's report: a write error fails the run. */
  function WriteOutcome(w: WriteReport): (r: RunReport)
    ensures r.uploaded == w.uploaded
    ensures r.ExitStatus() == 0 <==> w.outcome.Success?
    ensures w.outcome.Failure? ==> r.outcome == Failure(WriteFailed(w.outcome.error))
  {
    match w.outcome
    case Success(_) => RunReport(Success(()), w.uploaded)
    case Failure(e) => RunReport(Failure(WriteFailed(e)), w.uploaded)
  }

  /** `main`: the pipeline with the configured whitelist and output prefix. */
  function Process(loaded: Result<seq<RawRow>, LoadError>, parse: TimestampParser, stage: Stager,
                   ok: string -> bool, cleaned: bool): (r: RunReport)
    ensures loaded.Success? && Validate(loaded.value, ValidCurrencies, parse).Failure? ==>
              r.ExitStatus() == 1 && r.uploaded == []
  {
    Run(loaded, ValidCurrencies, parse, OutputPrefix, stage, ok, cleaned)
  }

  // ---- Properties ----

  /** A failed upload leaves the keys before it uploaded (nothing is rolled
      back), is the next key in walk order, and the rest are not attempted. */
  lemma WriteFailureKeepsEarlierUploads(rows: seq<Row>, prefix: string, stage: Stager, ok: string -> bool,
                                        cleaned: bool, key: string)
    requires Write(rows, prefix, stage, ok, cleaned).outcome == Failure(UploadFailed(key))
    ensures stage(Partition(rows)).Some?
    ensures var uploaded, keys := Write(rows, prefix, stage, ok, cleaned).uploaded,
                                  UploadKeys(prefix, stage(Partition(rows)).value);
            && uploaded < keys
            && keys[|uploaded|] == key
            && !ok(key)
  {
    var report := UploadAll(UploadKeys(prefix, stage(Partition(rows)).value), ok);
    assert report.failed == Some(key);
    assert Write(rows, prefix, stage, ok, cleaned).uploaded == report.uploaded;
  }

  /** The normal path: staging succeeds, the store accepts every key and the
      staging directory is removed; the write then succeeds with every key
      uploaded. */
  lemma WriteAllAccepted(rows: seq<Row>, prefix: string, stage: Stager, ok: string -> bool,
                         files: seq<StagedFile>)
    requires stage(Partition(rows)) == Some(files)
    requires forall i | 0 <= i < |UploadKeys(prefix, files)| :: ok(UploadKeys(prefix, files)[i])
    ensures Write(rows, prefix, stage, ok, true) == WriteReport(Success(()), UploadKeys(prefix, files))
  {
    UploadAllAccepted(UploadKeys(prefix, files), ok);
  }

  /** A run whose dataset validates, whose staging succeeds, whose every upload
      is accepted and whose staging directory is removed exits with status 0
      having uploaded every key of the staged `.parquet` files. */
  lemma RunSucceeds(raw: seq<RawRow>, whitelist: set<string>, parse: TimestampParser, prefix: string,
                    stage: Stager, ok: string -> bool, files: seq<StagedFile>)
    requires Validate(raw, whitelist, parse).Success?
    requires stage(Partition(Validate(raw, whitelist, parse).value)) == Some(files)
    requires forall i | 0 <= i < |UploadKeys(prefix, files)| :: ok(UploadKeys(prefix, files)[i])
    ensures var r := Run(Success(raw), whitelist, parse, prefix, stage, ok, true);
            r.outcome == Success(()) && r.ExitStatus() == 0 && r.uploaded == UploadKeys(prefix, files)
  {
    var rows := Validate(raw, whitelist, parse).value;
    WriteAllAccepted(rows, prefix, stage, ok, files);
    assert Run(Success(raw), whitelist, parse, prefix, stage, ok, true)
        == WriteOutcome(Write(rows, prefix, stage, ok, true));
  }

  /** Removing the staging directory fails the write only after every upload
      went through. */
  lemma CleanupFailureAfterUploads(rows: seq<Row>, prefix: string, stage: Stager, ok: string -> bool,
                                   files: seq<StagedFile>)
    requires stage(Partition(rows)) == Some(files)
    requires forall i | 0 <= i < |UploadKeys(prefix, files)| :: ok(UploadKeys(prefix, files)[i])
    ensures Write(rows, prefix, stage, ok, false) == WriteReport(Failure(CleanupFailed), UploadKeys(prefix, files))
  {
    UploadAllAccepted(UploadKeys(prefix, files), ok);
  }

  /** A failed removal of the staging directory still fails the run: every
      key is uploaded, yet the exit status is 1. */
  lemma CleanupFailureFailsRun(loaded: Result<seq<RawRow>, LoadError>, whitelist: set<string>,
                               parse: TimestampParser, prefix: string, stage: Stager, ok: string -> bool,
                               files: seq<StagedFile>)
    requires loaded.Success? && Validate(loaded.value, whitelist, parse).Success?
    requires stage(Partition(Validate(loaded.value, whitelist, parse).value)) == Some(files)
    requires forall i | 0 <= i < |UploadKeys(prefix, files)| :: ok(UploadKeys(prefix, files)[i])
    ensures var r := Run(loaded, whitelist, parse, prefix, stage, ok, false);
            && r.outcome == Failure(WriteFailed(CleanupFailed))
            && r.ExitStatus() == 1
            && r.uploaded == UploadKeys(prefix, files)
  {
    var rows := Validate(loaded.value, whitelist, parse).value;
    CleanupFailureAfterUploads(rows, prefix, stage, ok, files);
    assert Run(loaded, whitelist, parse, prefix, stage, ok, false)
        == WriteOutcome(Write(rows, prefix, stage, ok, false));
  }

  /** When the staging directory holds files of the run's partitions only,
      every uploaded key names the partition directory of some input row. */
  lemma UploadsLandInRowPartitions(rows: seq<Row>, prefix: string, stage: Stager, ok: string -> bool,
                                   cleaned: bool, key: string)
    requires stage(Partition(rows)).Some? ==> FaithfulStaging(Partition(rows), stage(Partition(rows)).value)
    requires key in Write(rows, prefix, stage, ok, cleaned).uploaded
    ensures stage(Partition(rows)).Some?
    ensures exists f, i | f in stage(Partition(rows)).value && 0 <= i < |rows| ::
              && key == UploadKey(prefix, f)
              && f.key == RowKey(rows[i])
  {
    var files := stage(Partition(rows)).value;
    assert key in UploadKeys(prefix, files);
    UploadedKeyOrigin(prefix, files, key);
    var j :| 0 <= j < |files| && IsParquet(files[j]) && key == UploadKey(prefix, files[j]);
    var f := files[j];
    PartitionKeyOrigin(rows, f.key);
    var i :| 0 <= i < |rows| && f.key == RowKey(rows[i]);
    assert f in files;
  }

  /** Each uploaded key is the key of a staged `.parquet` file of the validated rows. */
  lemma UploadedKeyIsStaged(loaded: Result<seq<RawRow>, LoadError>, whitelist: set<string>, parse: TimestampParser,
                            prefix: string, stage: Stager, ok: string -> bool, cleaned: bool, key: string)
    requires key in Run(loaded, whitelist, parse, prefix, stage, ok, cleaned).uploaded
    ensures loaded.Success? && Validate(loaded.value, whitelist, parse).Success?
    ensures stage(Partition(Validate(loaded.value, whitelist, parse).value)).Some?
    ensures key in UploadKeys(prefix, stage(Partition(Validate(loaded.value, whitelist, parse).value)).value)
  {
    var r := Run(loaded, whitelist, parse, prefix, stage, ok, cleaned);
    var n :| 0 <= n < |r.uploaded| && r.uploaded[n] == key;
    var staged := stage(Partition(Validate(loaded.value, whitelist, parse).value));
    assert staged.Some?;
    assert r.uploaded <= UploadKeys(prefix, staged.value);
    assert UploadKeys(prefix, staged.value)[n] == key;
  }

  /** With the configured prefix, every key has the shape
      `transactions/Year=<y>/Month=<mm>/<file>` of a staged `.parquet` file. */
  lemma ProcessKeyShape(loaded: Result<seq<RawRow>, LoadError>, parse: TimestampParser, stage: Stager,
                        ok: string -> bool, cleaned: bool, key: string)
    requires key in Process(loaded, parse, stage, ok, cleaned).uploaded
    ensures loaded.Success? && Validate(loaded.value, ValidCurrencies, parse).Success?
    ensures stage(Partition(Validate(loaded.value, ValidCurrencies, parse).value)).Some?
    ensures exists f | f in stage(Partition(Validate(loaded.value, ValidCurrencies, parse).value)).value ::
              && IsParquet(f)
              && key == OutputPrefix + "/Year=" + IntToString(f.key.year) + "/Month=" + f.key.month + "/" + f.name
  {
    UploadedKeyIsStaged(loaded, ValidCurrencies, parse, OutputPrefix, stage, ok, cleaned, key);
    var files := stage(Partition(Validate(loaded.value, ValidCurrencies, parse).value)).value;
    UploadKeysShape(OutputPrefix, files, key);
  }

  // ---- Scenarios ----

  /** The three-row sample of January, February and March 2024 validates and
      goes to three partitions of one row each. */
  lemma {:induction false} SampleThreeMonths(parse: TimestampParser)
    requires parse("2024-01-15 10:30:00") == Some(DateTime(2024, 1, 15, 10, 30, 0))
    requires parse("2024-02-20 15:45:00") == Some(DateTime(2024, 2, 20, 15, 45, 0))
    requires parse("2024-03-25 20:15:00") == Some(DateTime(2024, 3, 25, 20, 15, 0))
    ensures var raw := [
              RawRow(Some(1), Some(123), Some(100.50), Some("USD"), Some("2024-01-15 10:30:00")),
              RawRow(Some(2), Some(456), Some(-50.75), Some("EUR"), Some("2024-02-20 15:45:00")),
              RawRow(Some(3), Some(789), Some(75.25), Some("GBP"), Some("2024-03-25 20:15:00"))];
            var v := Validate(raw, ValidCurrencies, parse);
            && v.Success?
            && Partition(v.value).Keys == {PartitionKey(2024, "01"), PartitionKey(2024, "02"), PartitionKey(2024, "03")}
            && |Partition(v.value)[PartitionKey(2024, "01")]| == 1
            && |Partition(v.value)[PartitionKey(2024, "02")]| == 1
            && |Partition(v.value)[PartitionKey(2024, "03")]| == 1
  {
    var raw := [
      RawRow(Some(1), Some(123), Some(100.50), Some("USD"), Some("2024-01-15 10:30:00")),
      RawRow(Some(2), Some(456), Some(-50.75), Some("EUR"), Some("2024-02-20 15:45:00")),
      RawRow(Some(3), Some(789), Some(75.25), Some("GBP"), Some("2024-03-25 20:15:00"))];
    assert AllWhitelisted(raw, ValidCurrencies);
    assert AllParse(raw, parse);
    var rows := Validate(raw, ValidCurrencies, parse).value;
    assert rows[0].timestamp == DateTime(2024, 1, 15, 10, 30, 0);
    assert rows[1].timestamp == DateTime(2024, 2, 20, 15, 45, 0);
    assert rows[2].timestamp == DateTime(2024, 3, 25, 20, 15, 0);
    ThreeMonthsPartition(rows);
  }

  lemma ThreeMonthsPartition(rows: seq<Row>)
    requires |rows| == 3
    requires rows[0].timestamp.year == 2024 && rows[0].timestamp.month == 1
    requires rows[1].timestamp.year == 2024 && rows[1].timestamp.month == 2
    requires rows[2].timestamp.year == 2024 && rows[2].timestamp.month == 3
    ensures Partition(rows).Keys == {PartitionKey(2024, "01"), PartitionKey(2024, "02"), PartitionKey(2024, "03")}
    ensures |Partition(rows)[PartitionKey(2024, "01")]| == 1
    ensures |Partition(rows)[PartitionKey(2024, "02")]| == 1
    ensures |Partition(rows)[PartitionKey(2024, "03")]| == 1
  {
    assert ZeroPad2(1) == "01" && ZeroPad2(2) == "02" && ZeroPad2(3) == "03";
    var ks := DeriveKeys(rows);
    assert KeyOf(ks[0]) == PartitionKey(2024, "01");
    assert KeyOf(ks[1]) == PartitionKey(2024, "02");
    assert KeyOf(ks[2]) == PartitionKey(2024, "03");
    ThreeKeysThreeGroups(ks);
  }

  lemma ThreeKeysThreeGroups(ks: seq<KeyedRow>)
    requires |ks| == 3
    requires KeyOf(ks[0]) == PartitionKey(2024, "01")
    requires KeyOf(ks[1]) == PartitionKey(2024, "02")
    requires KeyOf(ks[2]) == PartitionKey(2024, "03")
    ensures Group(ks).Keys == {PartitionKey(2024, "01"), PartitionKey(2024, "02"), PartitionKey(2024, "03")}
    ensures |Group(ks)[PartitionKey(2024, "01")]| == 1
    ensures |Group(ks)[PartitionKey(2024, "02")]| == 1
    ensures |Group(ks)[PartitionKey(2024, "03")]| == 1
  {
    assert KeySet(ks) == {KeyOf(ks[0]), KeyOf(ks[1]), KeyOf(ks[2])};
    SelectOfThree(ks);
  }

  /** Three keyed rows of distinct keys: each key selects one row. */
  lemma SelectOfThree(ks: seq<KeyedRow>)
    requires |ks| == 3
    requires KeyOf(ks[0]) != KeyOf(ks[1]) && KeyOf(ks[0]) != KeyOf(ks[2]) && KeyOf(ks[1]) != KeyOf(ks[2])
    ensures forall i | 0 <= i < 3 :: |Select(ks, KeyOf(ks[i]))| == 1
  {
    var t1 := ks[1..];
    var t2 := t1[1..];
    assert t2[1..] == [];
    assert t1[0] == ks[1] && t2[0] == ks[2];
    forall i | 0 <= i < 3
      ensures |Select(ks, KeyOf(ks[i]))| == 1
    {
      var k := KeyOf(ks[i]);
      assert Select(t2[1..], k) == [];
      assert |Select(t2, k)| == (if i == 2 then 1 else 0);
      assert |Select(t1, k)| == (if i >= 1 then 1 else 0);
    }
  }

  /** An unknown currency code fails the run before any write. */
  lemma {:induction false} UnknownCurrencyStopsBeforeWrite(parse: TimestampParser, stage: Stager,
                                                           ok: string -> bool, cleaned: bool)
    ensures var raw := [RawRow(Some(1), Some(123), Some(100.50), Some("XXX"), Some("2024-01-15 10:30:00"))];
            var r := Process(Success(raw), parse, stage, ok, cleaned);
            r.outcome == Failure(ValidationFailed(InvalidCurrency)) && r.uploaded == [] && r.ExitStatus() == 1
  {
    var raw := [RawRow(Some(1), Some(123), Some(100.50), Some("XXX"), Some("2024-01-15 10:30:00"))];
    assert raw[0].currency.value !in ValidCurrencies;
    assert !AllWhitelisted(raw, ValidCurrencies);
  }

  /** An empty timestamp is caught by the null check, whatever the parser would make of it. */
  lemma EmptyTimestampIsIncomplete(parse: TimestampParser, stage: Stager, ok: string -> bool, cleaned: bool)
    ensures var raw := [RawRow(Some(1), Some(123), Some(100.50), Some("USD"), None)];
            Process(Success(raw), parse, stage, ok, cleaned).outcome == Failure(ValidationFailed(Incomplete))
  {
    var raw := [RawRow(Some(1), Some(123), Some(100.50), Some("USD"), None)];
    assert !IsComplete(raw[0]);
  }

  /** A dataset with no rows yields no partitions; if the writer stages nothing
      beyond its partitions, nothing is uploaded, and the run succeeds exactly
      when the staging directory is removed. */
  lemma EmptyDatasetSucceeds(parse: TimestampParser, stage: Stager, ok: string -> bool, cleaned: bool)
    requires stage(map[]).Some? && FaithfulStaging(map[], stage(map[]).value)
    ensures var r := Process(Success([]), parse, stage, ok, cleaned);
            (r.ExitStatus() == 0 <==> cleaned) && r.uploaded == []
  {
    var none: map<PartitionKey, seq<KeyedRow>> := map[];
    PartitionShape([]);
    assert Partition([]) == none;
    NoFileOutsidePartitions(none, stage(none).value);
  }

  /** A faithful staging of no partitions holds no file. */
  lemma NoFileOutsidePartitions(groups: map<PartitionKey, seq<KeyedRow>>, files: seq<StagedFile>)
    requires FaithfulStaging(groups, files)
    ensures files != [] ==> groups != map[]
  {
    if files != [] {
      assert files[0].key in groups;
    }
  }
}
