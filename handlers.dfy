/**
 * The two request handlers. `/query` builds the parameterised statement, hands
 * it to the database engine, and drains the result cursor into a list of log
 * rows, answering 400 if the engine fails at any point. `/log` inserts one
 * entry with the current time and answers 201, or 500 if the insert fails.
 * The engine itself is a parameter: what it answers for a statement.
 */
module Handlers {
  import opened Wrappers
  import opened QueryBuilder
  import opened RowProjector

  /** The statuses the handlers answer with. */
  datatype Status = Created | BadRequest | InternalServerError
  {
    function Code(): nat
    {
      match this
      case Created => 201
      case BadRequest => 400
      case InternalServerError => 500
    }
  }

  /** A failure reported by the database engine, whatever its cause. */
  datatype DbError = DbError

  /** What one call of the result cursor's `next` yields: a row, the end of the rows, or a failure. */
  datatype Step = Item(row: Row) | End | Fail

  /** The cursor's answer at position `pos`; a cursor that has nothing more reports the end. */
  function NextStep(cursor: seq<Step>, pos: nat): Step
  {
    if pos < |cursor| then cursor[pos] else End
  }

  /** The response the handler gives for a cursor: all rows up to the end, or 400 on a failure. */
  function Collect(cursor: seq<Step>): Result<seq<LogRow>, Status>
  {
    if cursor == [] then Success([])
    else
      match cursor[0]
      case End => Success([])
      case Fail => Failure(BadRequest)
      case Item(row) => Prepend([Project(row)], Collect(cursor[1..]))
  }

  function Prepend(rows: seq<LogRow>, response: Result<seq<LogRow>, Status>): Result<seq<LogRow>, Status>
  {
    match response
    case Success(later) => Success(rows + later)
    case Failure(e) => Failure(e)
  }

  lemma PrependNothing(response: Result<seq<LogRow>, Status>)
    ensures Prepend([], response) == response
  {
    if response.Success? {
      assert [] + response.value == response.value;
    }
  }

  lemma PrependTwice(first: seq<LogRow>, second: seq<LogRow>, response: Result<seq<LogRow>, Status>)
    ensures Prepend(first, Prepend(second, response)) == Prepend(first + second, response)
  {
    if response.Success? {
      assert first + (second + response.value) == (first + second) + response.value;
    }
  }

  /** Position of the first step that is not a row: where draining the cursor stops. */
  function FirstStop(cursor: seq<Step>): (k: nat)
    ensures k <= |cursor|
    ensures forall i :: 0 <= i < k ==> cursor[i].Item?
    ensures k < |cursor| ==> !cursor[k].Item?
  {
    if cursor == [] || !cursor[0].Item? then 0 else 1 + FirstStop(cursor[1..])
  }

  /**
   * The response succeeds exactly when the rows run out or end before any failure;
   * otherwise it is 400.
   */
  lemma {:induction false} CollectOutcome(cursor: seq<Step>)
    ensures Collect(cursor).Success?
        <==> FirstStop(cursor) == |cursor| || cursor[FirstStop(cursor)].End?
    ensures Collect(cursor).Failure? ==> Collect(cursor).error == BadRequest
  {
    if cursor != [] && cursor[0].Item? {
      CollectOutcome(cursor[1..]);
    }
  }

  /** A successful response holds the projections of the rows before the end, in cursor order. */
  lemma {:induction false} CollectRows(cursor: seq<Step>)
    requires Collect(cursor).Success?
    ensures |Collect(cursor).value| == FirstStop(cursor)
    ensures forall i :: 0 <= i < FirstStop(cursor) ==> Collect(cursor).value[i] == Project(cursor[i].row)
  {
    if cursor != [] && cursor[0].Item? {
      CollectRows(cursor[1..]);
      var rows := Collect(cursor).value;
      forall i | 0 <= i < FirstStop(cursor) ensures rows[i] == Project(cursor[i].row) {
        if i > 0 {
          assert cursor[i] == cursor[1..][i - 1];
        }
      }
    }
  }

  /** Nothing after the end of the rows, or after a failure, is ever looked at. */
  lemma {:induction false} CollectStopsAtFirstStop(cursor: seq<Step>, after: seq<Step>)
    requires FirstStop(cursor) < |cursor|
    ensures Collect(cursor + after) == Collect(cursor)
  {
    assert (cursor + after)[0] == cursor[0];
    if cursor[0].Item? {
      assert (cursor + after)[1..] == cursor[1..] + after;
      CollectStopsAtFirstStop(cursor[1..], after);
    }
  }

  /**
   * Drains the cursor as the handler's loop does: project and append each row,
   * counting them, until the end; a failure abandons the rows collected so far.
   * `count` is the number the handler logs as the total of rows returned.
   */
  method DrainCursor(cursor: seq<Step>) returns (response: Result<seq<LogRow>, Status>, count: nat)
    ensures response == Collect(cursor)
    ensures response.Success? ==> count == |response.value|
  {
    var rows: seq<LogRow> := [];
    count := 0;
    var pos := 0;
    assert cursor[pos..] == cursor;
    PrependNothing(Collect(cursor));
    while true
      invariant pos <= |cursor|
      invariant count == |rows|
      invariant Collect(cursor) == Prepend(rows, Collect(cursor[pos..]))
      decreases |cursor| - pos
    {
      match NextStep(cursor, pos)
      case Item(row) =>
        assert cursor[pos..][1..] == cursor[pos + 1..];
        PrependTwice(rows, [Project(row)], Collect(cursor[pos + 1..]));
        var logRow := Project(row);
        rows := rows + [logRow];
        count := count + 1;
        pos := pos + 1;
      case End =>
        assert rows + [] == rows;
        return Success(rows), count;
      case Fail =>
        return Failure(BadRequest), count;
    }
  }

  /**
   * The `/query` handler: the engine is asked for the statement built from the
   * filter; if it cannot run it the answer is 400, otherwise the cursor it
   * returns is drained.
   */
  method ExecuteQuery(q: SqlQuery, engine: Statement -> Result<seq<Step>, DbError>)
    returns (response: Result<seq<LogRow>, Status>)
    ensures engine(Build(q)).Failure? ==> response == Failure(BadRequest)
    ensures engine(Build(q)).Success? ==> response == Collect(engine(Build(q)).value)
  {
    var query, params := BuildStatement(q);
    match engine(Statement(query, params))
    case Failure(_) =>
      response := Failure(BadRequest);
    case Success(cursor) =>
      var count;
      response, count := DrainCursor(cursor);
  }

  /** The request body of `/log` (the Rust struct `LogEntry`). */
  datatype LogEntry = LogEntry(key: string, value: string)

  /** The columns the insert fills, in the order of its placeholders. */
  const InsertColumns: seq<string> := ["key", "value", "timestamp"]

  /** `n` placeholders separated by ", ". */
  function PlaceholderList(n: nat): string
  {
    if n == 0 then ""
    else if n == 1 then "?"
    else "?" + ", " + PlaceholderList(n - 1)
  }

  /**
   * The insert the `/log` handler runs:
   * "INSERT INTO logs (key, value, timestamp) VALUES (?, ?, ?)".
   */
  const InsertText: string :=
    "INSERT INTO logs (" + ColumnList(InsertColumns) + ") VALUES (" + PlaceholderList(|InsertColumns|) + ")"

  /** The insert text, spelled out in the pieces it is built from. */
  lemma InsertTextSpelledOut()
    ensures InsertText == "INSERT INTO logs (" + "key, value, timestamp" + ") VALUES (" + "?, ?, ?" + ")"
  {
    InsertColumnsSpelledOut();
    InsertPlaceholdersSpelledOut();
  }

  lemma InsertColumnsSpelledOut()
    ensures ColumnList(InsertColumns) == "key, value, timestamp"
  {
    assert InsertColumns[1..] == ["value", "timestamp"];
    assert InsertColumns[1..][1..] == ["timestamp"];
    assert ColumnList(InsertColumns) == "key" + ", " + "value" + ", " + "timestamp";
  }

  lemma InsertPlaceholdersSpelledOut()
    ensures PlaceholderList(|InsertColumns|) == "?, ?, ?"
  {
    assert PlaceholderList(3) == "?" + ", " + "?" + ", " + "?";
  }

  /** The value an entry written at `timestamp` gives to the column `name`. */
  function EntryColumn(entry: LogEntry, timestamp: string, name: string): string
  {
    if name == "key" then entry.key
    else if name == "value" then entry.value
    else if name == "timestamp" then timestamp
    else ""
  }

  /**
   * The insert for an entry written at `timestamp` (the handler's formatted
   * current time): one placeholder per inserted column, and the i-th parameter
   * is the entry's value for the i-th column the text names.
   */
  function InsertStatement(entry: LogEntry, timestamp: string): (st: Statement)
    ensures st.text == InsertText
    ensures Placeholders(st.text) == |st.params| == |InsertColumns|
    ensures forall i :: 0 <= i < |st.params| ==> st.params[i] == EntryColumn(entry, timestamp, InsertColumns[i])
  {
    InsertTextPlaceholders();
    InsertBinding(entry, timestamp);
    Statement(InsertText, [entry.key, entry.value, timestamp])
  }

  lemma InsertBinding(entry: LogEntry, timestamp: string)
    ensures forall i :: 0 <= i < |InsertColumns| ==>
              [entry.key, entry.value, timestamp][i] == EntryColumn(entry, timestamp, InsertColumns[i])
  {
    assert InsertColumns[0] == "key" && InsertColumns[1] == "value" && InsertColumns[2] == "timestamp";
    assert EntryColumn(entry, timestamp, "value") == entry.value;
    assert EntryColumn(entry, timestamp, "timestamp") == timestamp;
  }

  lemma {:induction false} PlaceholderListCount(n: nat)
    ensures Placeholders(PlaceholderList(n)) == n
  {
    if n > 1 {
      PlaceholderListCount(n - 1);
      NoQuestionMark(", ");
      PlaceholdersAdd("?", ", ");
      PlaceholdersAdd("?" + ", ", PlaceholderList(n - 1));
    }
  }

  /** The insert text holds exactly one placeholder per inserted column. */
  lemma InsertTextPlaceholders()
    ensures Placeholders(InsertText) == |InsertColumns|
  {
    InsertWordsAvoidQuestionMark();
    ColumnListAvoidsQuestionMark(InsertColumns);
    PlaceholderListCount(|InsertColumns|);
    OnlyMiddlePlaceholders("INSERT INTO logs (", ColumnList(InsertColumns), ") VALUES (",
                           PlaceholderList(|InsertColumns|), ")");
  }

  lemma InsertWordsAvoidQuestionMark()
    ensures '?' !in "INSERT INTO logs (" && '?' !in ") VALUES (" && '?' !in ")"
    ensures forall i :: 0 <= i < |InsertColumns| ==> '?' !in InsertColumns[i]
  {
    assert '?' !in "INSERT " + "INTO " + "logs (";
  }

  /** Only the fourth of five pieces holds placeholders. */
  lemma OnlyMiddlePlaceholders(a: string, b: string, c: string, d: string, e: string)
    requires '?' !in a && '?' !in b && '?' !in c && '?' !in e
    ensures Placeholders(a + b + c + d + e) == Placeholders(d)
  {
    NoQuestionMark(a);
    NoQuestionMark(b);
    NoQuestionMark(c);
    NoQuestionMark(e);
    PlaceholdersAdd(a, b);
    PlaceholdersAdd(a + b, c);
    PlaceholdersAdd(a + b + c, d);
    PlaceholdersAdd(a + b + c + d, e);
  }

  /** The position of `name` in `names`, if it is there. */
  function IndexOf(names: seq<string>, name: string): (index: Option<nat>)
    ensures index.Some? ==> index.value < |names| && names[index.value] == name
    ensures index.None? ==> name !in names
  {
    if names == [] then None
    else if names[0] == name then Some(0)
    else match IndexOf(names[1..], name)
      case Some(i) => Some(i + 1)
      case None => None
  }

  /**
   * What the table holds in the column `name` after the insert `st`, once the
   * engine has assigned the row `id`: the id, or the parameter at the position
   * the insert text names the column, or null for a column it does not name.
   */
  function StoredColumn(id: I64, st: Statement, name: string): Result<DbValue, ColumnError>
    requires |st.params| == |InsertColumns|
  {
    if name == "id" then Success(Integer(id))
    else match IndexOf(InsertColumns, name)
      case Some(i) => Success(Text(st.params[i]))
      case None => Success(Null)
  }

  /** The row a query reads back after the insert `st`: its selected columns, in selection order. */
  function InsertedRow(id: I64, st: Statement): Row
    requires |st.params| == |InsertColumns|
  {
    Row(seq(|SelectedColumnNames|, j requires 0 <= j < |SelectedColumnNames| => StoredColumn(id, st, SelectedColumnNames[j])))
  }

  /**
   * An inserted entry reads back, through the projection, as the entry with its
   * timestamp and id: each value lands in the column the insert names for it.
   */
  lemma InsertThenProject(entry: LogEntry, timestamp: string, id: I64)
    ensures Project(InsertedRow(id, InsertStatement(entry, timestamp)))
         == LogRow(id, entry.key, entry.value, timestamp)
  {
    var st := InsertStatement(entry, timestamp);
    assert st.params == [entry.key, entry.value, timestamp];
    InsertedRowProjects(id, st);
  }

  /** The row read back after an insert projects to the id and the parameters in insert order. */
  lemma InsertedRowProjects(id: I64, st: Statement)
    requires |st.params| == |InsertColumns|
    ensures Project(InsertedRow(id, st)) == LogRow(id, st.params[0], st.params[1], st.params[2])
  {
    var row := InsertedRow(id, st);
    StoredColumnsOfInsert(id, st);
    assert GetValue(row, 0) == StoredColumn(id, st, "id");
    assert GetValue(row, 1) == StoredColumn(id, st, "key");
    assert GetValue(row, 2) == StoredColumn(id, st, "value");
    assert GetValue(row, 3) == StoredColumn(id, st, "timestamp");
  }

  /** Each selected column of an inserted row holds the id or the parameter the insert gives it. */
  lemma StoredColumnsOfInsert(id: I64, st: Statement)
    requires |st.params| == |InsertColumns|
    ensures StoredColumn(id, st, "id") == Success(Integer(id))
    ensures StoredColumn(id, st, "key") == Success(Text(st.params[0]))
    ensures StoredColumn(id, st, "value") == Success(Text(st.params[1]))
    ensures StoredColumn(id, st, "timestamp") == Success(Text(st.params[2]))
  {
    assert IndexOf(InsertColumns, "key") == Some(0);
    assert IndexOf(InsertColumns, "value") == Some(1);
    assert IndexOf(InsertColumns, "timestamp") == Some(2);
  }

  /**
   * The `/log` handler: `execute` says whether the engine runs the insert.
   * 201 when it does, 500 when it does not.
   */
  function AddLog(entry: LogEntry, timestamp: string, execute: Statement -> bool): (status: Result<Status, Status>)
    ensures status == Success(Created) <==> execute(InsertStatement(entry, timestamp))
    ensures !execute(InsertStatement(entry, timestamp)) ==> status == Failure(InternalServerError)
    ensures status.Success? ==> status.value.Code() == 201
    ensures status.Failure? ==> status.error.Code() == 500
  {
    if execute(InsertStatement(entry, timestamp)) then Success(Created) else Failure(InternalServerError)
  }
}
