# Transaction ingestion pipeline — Dafny model

A model of the core of a small batch job (`main.py`) that loads a CSV of
transactions, validates it as a whole, and rewrites it as a Parquet dataset
partitioned Hive-style by `Year=<y>/Month=<mm>` under an S3 key prefix.

What is modelled, as pure functions over already-parsed records:

- **Validator** (`validate_data`): the three fail-fast whole-dataset checks —
  no null field anywhere (`Incomplete`), distinct currency codes a subset of a
  whitelist (`InvalidCurrency`), every timestamp parses (`InvalidTimestamp`) —
  and the replacement of each timestamp by its parsed value. The whitelist and
  the timestamp parser are parameters; the pipeline passes the seven-code
  `ValidCurrencies`.
- **Partitioner** (`write_parquet_to_s3` without its I/O): the `Year` column
  (the timestamp's year) and the `Month` column (`f"{month:02}"`), grouping by
  `(Year, Month)` in one pass, the directory `Year=<str(y)>/Month=<mm>` a
  group's files sit in, and the object key
  `os.path.join(prefix, relpath)` of each staged `.parquet` file.
- **Uploader loop**: the `.parquet` files are uploaded in walk order, each
  once; the first failed upload ends the write; nothing is rolled back; the
  staging directory is removed last.
- **Pipeline** (`main`): load, validate, write, stopping at the first failure;
  a failure gives exit status 1, completion exit status 0.

Modules: `Wrappers` (Option/Result), `Transactions` (records, errors,
whitelist), `Decimal` (Python's `str(int)` and `f"{n:02}"` with their
digit-string readings), `Validation`, `Partitioning`, `Upload`, `Pipeline`.

Foreign behaviour enters as parameters: `parse: string -> Option<DateTime>`
stands for `pd.to_datetime(..., errors="coerce")` (a `DateTime`'s month is a
subset type `1..12`); `stage` stands for `pq.write_to_dataset` followed by the
`os.walk` of the staging directory (it maps the groups to the list of files
found there, or to `None` when `pa.Table.from_pandas`, `os.makedirs` or
`pq.write_to_dataset` raises); `ok: string -> bool` stands for whether
`s3_client.upload_file` succeeds for a key; `cleaned: bool` stands for whether
`shutil.rmtree` succeeds; the loader's outcome is the `Result` value `loaded`.

Behaviour of the code worth knowing:

- the staging directory is removed only after every upload succeeded
  (main.py:84), and a failure to remove it fails the run with exit status 1
  although every file was uploaded; a failed run leaves the directory
  behind, and because it is created with `exist_ok=True` and walked in full, files left by an earlier failed run are
  uploaded by the next one. The model takes the walk's listing as given
  (`stage`) and proves its facts about uploaded keys under the explicit
  hypothesis `FaithfulStaging` (only files of this run's partitions);
- the currency error carries no list of the offending codes (main.py:42).

## Model

| member | source | states |
|---|---|---|
| Validation.Validate | main.py:33-52 | Fails with `Incomplete` exactly when some row has a missing field; with `InvalidCurrency` exactly when no field is missing and some code is off the whitelist; with `InvalidTimestamp` exactly when both earlier checks pass and some timestamp does not parse; otherwise succeeds with the same number of rows, in order, each with id, customer, amount and currency unchanged and timestamp equal to the parse of its text |
| Validation.CurrencySubsetIffEveryRow | main.py:40-42 | The set-of-distinct-codes subset test holds exactly when every row's currency is on the whitelist |
| Validation.FailFastOrder | main.py:36-47 | Once the null check fails the outcome depends on neither whitelist nor parser; once the currency check fails it does not depend on the parser |
| Validation.OneBadRowRejectsAll | main.py:36-47 | A row that fails validation on its own makes any dataset it is appended to fail, however many valid rows precede it |
| Decimal.NatToString | main.py:68-72 | `str(n)`: a non-empty digit string without leading zero whose decimal value is `n` |
| Decimal.IntToString | main.py:68-72 | `str(n)` for the `Year` directory value: reads back as `n` by `int()`, starts with `-` exactly for negatives, has no leading zero before or after the sign (so never `-0`), contains no `/` |
| Decimal.IntToStringInjective | main.py:68-72 | Distinct years give distinct directory values |
| Decimal.ZeroPad2 | main.py:60 | `f"{n:02}"`: a digit string of length at least 2 whose value is `n`, of length exactly 2 exactly when `n < 100`, starting with `0` exactly when `n < 10`, with no `/` |
| Partitioning.AddPartitionColumns | main.py:59-60 | The row is kept; `Year` is the timestamp's year; `Month` is a two-character digit string whose value is the timestamp's month |
| Partitioning.DeriveKeys | main.py:59-60 | One keyed row per row, in order, each carrying that row unchanged with its year and two-digit month |
| Partitioning.DeriveKeysRoundTrip | main.py:58-60 | Dropping the added `Year`/`Month` columns gives back exactly the input rows |
| Partitioning.SameKeyIffSameMonth | main.py:59-60 | Two rows share a partition key exactly when their timestamps have the same year and month |
| Partitioning.Select | main.py:68-72 | The reference group of key `k`: only rows with key `k`, empty exactly when `k` does not occur |
| Partitioning.Group | main.py:68-72 | One group per occurring `(Year, Month)` and no other, each group equal to the reference selection of the rows with that key, in input order |
| Partitioning.GroupEmptyIff | main.py:68-72 | An empty input gives no groups; a non-empty one gives some |
| Partitioning.GroupsDisjoint | main.py:68-72 | No group is empty, every row of a group carries the group's key, and no row lies in two groups |
| Partitioning.GroupCover | main.py:59-72 | The multiset union of all groups equals the multiset of input rows (exhaustive, no row dropped or duplicated) |
| Partitioning.Partition | main.py:59-72 | The partitions are exactly the `(year, f"{month:02}")` pairs of the rows' timestamps; its grouping is stated by `Group`, `GroupCover` and `PartitionShape` |
| Partitioning.RowKeysDerived | main.py:59-60 | The keys of the rows with their added columns are the rows' `(year, f"{month:02}")` pairs |
| Partitioning.PartitionShape | main.py:59-72 | No rows gives no partitions; every row's `(year, f"{month:02}")` is a partition; every row in a partition carries its key |
| Partitioning.PartitionKeyOrigin | main.py:59-72 | Every partition is the `(Year, Month)` of some input row |
| Partitioning.PartitionRoundTrip | main.py:58-72 | Concatenating all partitions and dropping the added columns gives the validated rows up to order |
| Upload.Join | main.py:79 | `os.path.join(a, b)`: ends with `b`; an empty `a` gives `b`; a relative `b` is appended after a single separator |
| Upload.PartitionDir | main.py:68-72 | The Hive directory of a partition is a relative path ending in the month value; its injectivity is `RelPathInjective` |
| Upload.RelPath | main.py:78-79 | The path relative to the staging root is relative (no leading `/`) and ends in `/` and the file name |
| Upload.UploadKey | main.py:79 | The key keeps the whole relative path at its end and the prefix is never replaced: an empty prefix gives the relative path; a prefix ending in `/` is followed directly by it; any other prefix is followed by exactly one `/` and then it |
| Upload.UploadKeys | main.py:75-79 | No more keys than staged files, each the joined key of some staged `.parquet` file (one key per file, in walk order, is `UploadKeysInWalkOrder`) |
| Upload.ParquetPositions | main.py:76-77 | The positions of the `.parquet` files of a listing, strictly increasing, each a `.parquet` file, and every `.parquet` position present |
| Upload.UploadKeysInWalkOrder | main.py:75-79 | The upload list has one key per `.parquet` file, in walk order: its j-th key is the key of the j-th `.parquet` file (no file skipped, repeated or reordered) |
| Upload.UploadKeysComplete | main.py:75-79 | Every staged `.parquet` file gets its key in the upload list |
| Upload.UploadedKeyOrigin | main.py:75-79 | Every key in the upload list comes from a staged `.parquet` file |
| Upload.UploadAll | main.py:75-80 | Uploads a leading part of the keys, all accepted; stops exactly at the first key the store rejects and reports it; uploads all keys exactly when every upload succeeds |
| Upload.UploadAllAccepted | main.py:75-80 | When the store accepts every key, all keys are uploaded and no failure is reported |
| Upload.UploadKeyShape | main.py:78-79 | With a non-empty prefix not ending in `/`, the key is `prefix/Year=<y>/Month=<mm>/<file>` |
| Upload.UploadKeysShape | main.py:75-79 | Every key in the upload list has the shape `prefix/Year=<y>/Month=<mm>/<file>` of some staged `.parquet` file |
| Upload.RelPathInjective | main.py:78 | The path relative to the staging root determines the partition and the file name |
| Upload.UploadKeyInjective | main.py:78-79 | Two staged files with the same upload key are the same file (distinct partitions never collide) |
| Pipeline.Write | main.py:55-87 | Fails with `StagingFailed` exactly when staging raised, and then uploads nothing; otherwise what is uploaded is a leading part of the keys of the staged `.parquet` files; every key reported uploaded was accepted by the store; the write succeeds exactly when staging succeeded, the whole key list went up and the directory was removed; it fails on cleanup exactly when the whole key list went up but the removal failed |
| Pipeline.Run | main.py:90-108 | A failed load, or any of the three validation failures, ends the run with that error and nothing uploaded; uploads and write failures happen only after successful validation; a staging failure uploads nothing; exit status is 0 or 1, and 0 only when everything staged was uploaded and the staging directory removed |
| Pipeline.WriteAllAccepted | main.py:66-84 | When staging succeeds, the store accepts every key and the directory is removed, the write succeeds with every staged `.parquet` key uploaded |
| Pipeline.RunSucceeds | main.py:90-104 | A dataset that validates, stages, has every upload accepted and its directory removed gives exit status 0 with every staged `.parquet` key uploaded |
| Pipeline.WriteOutcome | main.py:102-108 | A write error fails the run with that error (exit status 1); the uploaded keys are passed through |
| Pipeline.Process | main.py:90-108 | With the configured whitelist, a rejected dataset gives exit status 1 and no upload |
| Pipeline.WriteFailureKeepsEarlierUploads | main.py:75-87 | A failed upload comes after successful staging, leaves the earlier keys uploaded, is the next key in walk order, and was rejected by the store |
| Pipeline.CleanupFailureAfterUploads | main.py:74-87 | If the store accepts every key but the staging directory cannot be removed, the write uploads every key and fails with `CleanupFailed` |
| Pipeline.CleanupFailureFailsRun | main.py:84-108 | A failed removal of the staging directory gives exit status 1 although every key was uploaded |
| Pipeline.UploadsLandInRowPartitions | main.py:59-80 | If staging holds only this run's partitions, every uploaded key is a staged file's key whose partition is the `(year, month)` of some input row |
| Pipeline.UploadedKeyIsStaged | main.py:94-102 | An uploaded key implies the load and validation succeeded, and is a key of a staged `.parquet` file of the validated rows |
| Pipeline.ProcessKeyShape | main.py:75-80 | Every key the configured pipeline uploads is `transactions/Year=<y>/Month=<mm>/<file>` |
| Pipeline.SampleThreeMonths | tests/test_main.py:16-19 | The three-row January/February/March 2024 sample validates and yields partitions `(2024, "01")`, `(2024, "02")` and `(2024, "03")` of one row each |
| Pipeline.UnknownCurrencyStopsBeforeWrite | tests/test_main.py:74-82 | Currency `XXX` fails with `InvalidCurrency`, exit status 1, nothing uploaded |
| Pipeline.EmptyTimestampIsIncomplete | tests/test_main.py:84-92 | An empty timestamp fails the null check (`Incomplete`), whatever the parser would say |
| Pipeline.EmptyDatasetSucceeds | main.py:66-84 | With no rows and staging faithful to the partitions, nothing is uploaded, and the run succeeds exactly when the staging directory is removed |

## Left out

- S3 access (`boto3` client, `get_object`, `upload_file`): network I/O; the
  load outcome is an input and upload success is the parameter `ok`.
- CSV parsing (`pd.read_csv`): foreign; the model starts from records whose
  fields are `Option`s (missing = pandas NaN). Which texts pandas reads as
  NaN ("", "NA", "null", ...) is part of that foreign step.
- Timestamp parsing semantics (`pd.to_datetime`): foreign; `parse` is an
  arbitrary element-wise function. pandas infers one format for the whole
  column, so in the source one element's parse can depend on the others; the
  model does not capture that.
- Parquet and Arrow encoding (`pa.Table.from_pandas`, `pq.write_to_dataset`):
  foreign; only grouping and directory naming are modelled, not file contents
  or file names, which come from the `stage` parameter. Why these calls raise
  is not modelled either: `stage` returning `None` stands for any of them
  raising, with `os.makedirs`.
- Staging directory handling (`os.makedirs`, `os.walk`, `shutil.rmtree`):
  filesystem I/O; the walk's listing is the `stage` parameter and the success
  of the removal the `cleaned` parameter.
- Missing columns: a CSV without a `Currency` or `TransactionTimestamp`
  column makes `validate_data` raise `KeyError` (main.py:41, 45) and the run
  exit with status 1. The model's records always have all five fields, so it
  cannot express such a table; a header-level failure of that kind is outside
  it.
- Files lying directly in the staging root: the partitioned writer never puts
  any there, and a `StagedFile` always names its partition directory.
- `TransactionAmount` arithmetic: the float is passed through untouched and is
  modelled as a `real`; float precision is not modelled.
- Printed progress and error messages, and `sys.exit` beyond its status code.
- The output bucket name: every upload goes to the one configured bucket, so
  only keys are modelled.
- Pipeline.Process: states only the validation-failure case; the other
  guarantees are those of Pipeline.Run, which it instantiates.
