/** The records of the transaction dataset (main.py), before and after validation. */
module Transactions {
  import opened Wrappers

  /** A calendar month number, as pandas' `.dt.month` yields it. */
  type MonthNumber = m: int | 1 <= m <= 12 witness 1

  /** A parsed timestamp. Only the year and the month are used downstream. */
  datatype DateTime = DateTime(year: int, month: MonthNumber, day: int, hour: int, minute: int, second: int)

  /** The element-wise timestamp parser (`pd.to_datetime(..., errors="coerce")`):
      text that does not parse becomes `None` (pandas' NaT). */
  type TimestampParser = string -> Option<DateTime>

  /** One record as the CSV loader yields it: every field may be missing (NaN). */
  datatype RawRow = RawRow(
    transactionId: Option<int>,
    customerId: Option<int>,
    amount: Option<real>,
    currency: Option<string>,
    timestamp: Option<string>)

  /** One record after validation: no field missing, the timestamp parsed. */
  datatype Row = Row(
    transactionId: int,
    customerId: int,
    amount: real,
    currency: string,
    timestamp: DateTime)

  /** The three ways validation rejects a dataset; the source tells them
      apart only by the message of the ValueError it raises. */
  datatype ValidationError = Incomplete | InvalidCurrency | InvalidTimestamp

  /** The currency whitelist the pipeline runs with (ISO 4217 codes). */
  const ValidCurrencies: set<string> := {"USD", "EUR", "GBP", "JPY", "CAD", "AUD", "INR"}
}
