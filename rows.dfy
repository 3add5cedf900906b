/**
 * CSV rows as the importers see them (one `csv.DictReader` row: column name to text), the
 * exceptions a row transform can raise, and the field accessors the transforms use.
 */
module Rows {
  import opened Wrappers
  import opened Numeric
  import opened Timestamps

  type Row = map<string, string>

  /** Why a transform raised: `KeyError`, `ValueError` from `int(...)`, or a date parse error. */
  datatype Failure =
    | MissingField(field: string)
    | NotAnInteger(field: string)
    | BadTimestamp(field: string)

  /** `row.get(field)`. */
  function Get(row: Row, field: string): (r: Option<string>)
    ensures r.Some? <==> field in row
    ensures r.Some? ==> r.value == row[field]
  {
    if field in row then Some(row[field]) else None
  }

  /** `row[field]`, raising `KeyError` when the column is absent. */
  function Field(row: Row, field: string): (r: Result<string, Failure>)
    ensures r.Success? <==> field in row
    ensures r.Success? ==> r.value == row[field]
    ensures r.Failure? ==> r.error == MissingField(field)
  {
    if field in row then Success(row[field]) else Failure(MissingField(field))
  }

  /** `int(row[field])`: `KeyError` or `ValueError`. */
  function IntField(row: Row, field: string): (r: Result<int, Failure>)
    ensures r.Success? <==> field in row && ParseInt(row[field]).Some?
    ensures r.Success? ==> r.value == ParseInt(row[field]).value
  {
    match Field(row, field)
    case Failure(e) => Failure(e)
    case Success(text) =>
    match ParseInt(text)
    case Some(n) => Success(n)
    case None => Failure(NotAnInteger(field))
  }

  /** `parser.parse(value)` on a value that may be missing (`None` makes the parser raise). */
  function TimestampOf(parse: Parser, value: Option<string>, field: string): (r: Result<Timestamp, Failure>)
    ensures r.Success? <==> value.Some? && ParseTimestamp(parse, value.value).Some?
    ensures r.Success? ==> r.value == ParseTimestamp(parse, value.value).value
  {
    if value.None? then Failure(BadTimestamp(field))
    else match ParseTimestamp(parse, value.value)
      case Some(t) => Success(t)
      case None => Failure(BadTimestamp(field))
  }

  /** `table.get(key, {})`: a missing reference reads as an empty row. */
  function Lookup(table: map<int, Row>, key: int): (r: Row)
    ensures key !in table ==> r == map[]
    ensures key in table ==> r == table[key]
  {
    if key in table then table[key] else map[]
  }
}
