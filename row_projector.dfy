/**
 * The row projector of the `/query` handler: every result row is turned into
 * a fixed-shape log row. Column 0 gives the id, columns 1 to 3 give the key,
 * the value and the timestamp; a column that cannot be read, or holds a value
 * of another type, gives 0 for the id and the empty string for the others.
 */
module RowProjector {
  import opened Wrappers

  /** Rust's `i64`. */
  type I64 = x: int | -0x8000_0000_0000_0000 <= x < 0x8000_0000_0000_0000

  /** A value as the database engine hands it out: its dynamic type and payload. */
  datatype DbValue = Null | Integer(i: I64) | Float(r: real) | Text(s: string) | Blob(bytes: seq<bv8>)

  /** The failure of reading one column of a row. */
  datatype ColumnError = ColumnError

  /** One result row: what reading each of its columns yields. */
  datatype Row = Row(columns: seq<Result<DbValue, ColumnError>>)

  /** The response record (the Rust struct `LogRow`). */
  datatype LogRow = LogRow(id: I64, key: string, value: string, timestamp: string)

  /** Reading column `index` of a row; a column the row does not have cannot be read. */
  function GetValue(row: Row, index: nat): Result<DbValue, ColumnError>
  {
    if index < |row.columns| then row.columns[index] else Failure(ColumnError)
  }

  /** The id read from a column: an integer is kept, anything else becomes 0. */
  function IdOf(read: Result<DbValue, ColumnError>): (id: I64)
    ensures read.Success? && read.value.Integer? ==> id == read.value.i
    ensures id != 0 ==> read == Success(Integer(id))
  {
    match read
    case Success(Integer(i)) => i
    case _ => 0
  }

  /** A text read from a column: a text is kept, anything else becomes "". */
  function TextOf(read: Result<DbValue, ColumnError>): (s: string)
    ensures read.Success? && read.value.Text? ==> s == read.value.s
    ensures s != "" ==> read == Success(Text(s))
  {
    match read
    case Success(Text(s)) => s
    case _ => ""
  }

  /** The log row a result row projects to. */
  function Project(row: Row): LogRow
  {
    LogRow(IdOf(GetValue(row, 0)), TextOf(GetValue(row, 1)), TextOf(GetValue(row, 2)), TextOf(GetValue(row, 3)))
  }

  /** A row as the `logs` table holds a log row: an integer id and three texts, in selection order. */
  function StoredRow(r: LogRow): Row
  {
    Row([Success(Integer(r.id)), Success(Text(r.key)), Success(Text(r.value)), Success(Text(r.timestamp))])
  }

  /**
   * Projection loses nothing on rows of the table's own shape: the stored log
   * row comes back whatever further columns follow.
   */
  lemma ProjectStoredRow(r: LogRow, further: seq<Result<DbValue, ColumnError>>)
    ensures Project(Row(StoredRow(r).columns + further)) == r
  {
  }

  /** Each field of the projection depends on its own column only. */
  lemma ProjectReadsOwnColumn(row1: Row, row2: Row)
    ensures GetValue(row1, 0) == GetValue(row2, 0) ==> Project(row1).id == Project(row2).id
    ensures GetValue(row1, 1) == GetValue(row2, 1) ==> Project(row1).key == Project(row2).key
    ensures GetValue(row1, 2) == GetValue(row2, 2) ==> Project(row1).value == Project(row2).value
    ensures GetValue(row1, 3) == GetValue(row2, 3) ==> Project(row1).timestamp == Project(row2).timestamp
  {
  }
}
