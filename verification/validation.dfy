/** The validator (`validate_data`, main.py:33-52): three whole-dataset checks
    run in a fixed order, the first failing one rejecting every row. */
module Validation {
  import opened Wrappers
  import opened Transactions

  /** No field of the record is missing. */
  predicate IsComplete(r: RawRow) {
    && r.transactionId.Some?
    && r.customerId.Some?
    && r.amount.Some?
    && r.currency.Some?
    && r.timestamp.Some?
  }

  /** `df.isnull().any().any()`: some field of some row is missing. */
  predicate HasNull(rows: seq<RawRow>) {
    exists i | 0 <= i < |rows| :: !IsComplete(rows[i])
  }

  /** `set(df["Currency"].unique())`: the distinct currency codes present. */
  function Currencies(rows: seq<RawRow>): set<string> {
    set i | 0 <= i < |rows| && rows[i].currency.Some? :: rows[i].currency.value
  }

  /** `pd.to_datetime(df["TransactionTimestamp"], errors="coerce")` on a
      dataset without nulls: one parse result per row, `None` for NaT. */
  function ParseColumn(rows: seq<RawRow>, parse: TimestampParser): seq<Option<DateTime>>
    requires !HasNull(rows)
  {
    seq(|rows|, i requires 0 <= i < |rows| => parse(rows[i].timestamp.value))
  }

  /** A complete record with its timestamp column replaced by the parsed value. */
  function Normalize(r: RawRow, t: DateTime): Row
    requires IsComplete(r)
  {
    Row(r.transactionId.value, r.customerId.value, r.amount.value, r.currency.value, t)
  }

  /** The validator. The whitelist is a parameter (the pipeline passes
      `ValidCurrencies`); so is the timestamp parser. */
  function Validate(rows: seq<RawRow>, whitelist: set<string>, parse: TimestampParser)
    : (r: Result<seq<Row>, ValidationError>)
    // a single missing field anywhere rejects the whole dataset
    ensures r == Failure(Incomplete) <==> !AllComplete(rows)
    // with no nulls, the currency check fails exactly when some code is off the whitelist
    ensures r == Failure(InvalidCurrency) <==> AllComplete(rows) && !AllWhitelisted(rows, whitelist)
    // the timestamp check is reached only after the two earlier checks passed
    ensures r == Failure(InvalidTimestamp) <==>
              AllComplete(rows) && AllWhitelisted(rows, whitelist) && !AllParse(rows, parse)
    ensures r.Success? <==> AllComplete(rows) && AllWhitelisted(rows, whitelist) && AllParse(rows, parse)
    // on success: same rows, same order, only the timestamp replaced by its parse
    ensures r.Success? ==> |r.value| == |rows|
    ensures r.Success? ==> forall i | 0 <= i < |rows| :: Normalized(rows[i], r.value[i], parse)
  {
    if HasNull(rows) then
      Failure(Incomplete)
    else if !(Currencies(rows) <= whitelist) then
      assert !AllWhitelisted(rows, whitelist) by {
        var c :| c in Currencies(rows) && c !in whitelist;
      }
      Failure(InvalidCurrency)
    else
      var column := ParseColumn(rows, parse);
      if exists i | 0 <= i < |column| :: column[i].None? then
        Failure(InvalidTimestamp)
      else
        Success(seq(|rows|, i requires 0 <= i < |rows| => Normalize(rows[i], column[i].value)))
  }

  // ---- Reference predicates the contract of Validate is stated in ----

  /** Every field of every row is present. */
  predicate AllComplete(rows: seq<RawRow>) {
    forall i | 0 <= i < |rows| :: IsComplete(rows[i])
  }

  /** Every currency code that is present is on the whitelist. */
  predicate AllWhitelisted(rows: seq<RawRow>, whitelist: set<string>) {
    forall i | 0 <= i < |rows| :: rows[i].currency.Some? ==> rows[i].currency.value in whitelist
  }

  /** Every timestamp text that is present parses. */
  predicate AllParse(rows: seq<RawRow>, parse: TimestampParser) {
    forall i | 0 <= i < |rows| :: rows[i].timestamp.Some? ==> parse(rows[i].timestamp.value).Some?
  }

  /** `row` is `raw` with nothing changed but the timestamp, which is the parse of its text. */
  predicate Normalized(raw: RawRow, row: Row, parse: TimestampParser) {
    && raw.transactionId == Some(row.transactionId)
    && raw.customerId == Some(row.customerId)
    && raw.amount == Some(row.amount)
    && raw.currency == Some(row.currency)
    && raw.timestamp.Some?
    && parse(raw.timestamp.value) == Some(row.timestamp)
  }

  // ---- Properties ----

  /** The source's set-inclusion test on distinct codes agrees with the
      row-by-row reading of the rule. */
  lemma CurrencySubsetIffEveryRow(rows: seq<RawRow>, whitelist: set<string>)
    ensures Currencies(rows) <= whitelist <==> AllWhitelisted(rows, whitelist)
  {
    if Currencies(rows) <= whitelist {
      forall i | 0 <= i < |rows| && rows[i].currency.Some?
        ensures rows[i].currency.value in whitelist
      {
        assert rows[i].currency.value in Currencies(rows);
      }
    } else {
      var c :| c in Currencies(rows) && c !in whitelist;
    }
  }

  /** Fail-fast order: once the null check fails, neither the whitelist nor
      the parser matters; once the currency check fails, the parser does not. */
  lemma FailFastOrder(rows: seq<RawRow>, w1: set<string>, w2: set<string>, p1: TimestampParser, p2: TimestampParser)
    ensures !AllComplete(rows) ==> Validate(rows, w1, p1) == Validate(rows, w2, p2) == Failure(Incomplete)
    ensures Validate(rows, w1, p1) == Failure(InvalidCurrency) ==> Validate(rows, w1, p2) == Failure(InvalidCurrency)
  {
  }

  /** A dataset that passes validation keeps passing when a row is appended
      only if that row passes on its own; one bad row rejects everything. */
  lemma OneBadRowRejectsAll(rows: seq<RawRow>, bad: RawRow, whitelist: set<string>, parse: TimestampParser)
    requires Validate([bad], whitelist, parse).Failure?
    ensures Validate(rows + [bad], whitelist, parse).Failure?
  {
    var all := rows + [bad];
    assert all[|rows|] == bad;
    if IsComplete(bad) && bad.currency.value in whitelist {
      assert !AllParse(all, parse);
    }
  }
}
