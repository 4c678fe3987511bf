# api_logger: the query handler, modelled in Dafny

api_logger is a small HTTP log service. `POST /log` stores a `{key, value}` entry with the
current UTC time in a `logs` table. `POST /query` returns the stored rows that match an
optional filter `{key, value_like, from, to}`. All of its decision-making sits in the
`/query` handler (`execute_query`), and this project models that handler and the parameter
order of the `/log` insert (`add_log`).

- `wrappers.dfy`: module `Wrappers`. `Option` and `Result`, which stand for Rust's types.
- `query_builder.dfy`: module `QueryBuilder`. It turns the filter record into a
  parameterised statement. The handler starts from
  `SELECT id, key, value, timestamp FROM logs WHERE 1=1`. Then, for each field that is set,
  in the order key, value_like, from, to, it appends one ` AND … ?` clause and pushes the
  field's value onto the positional parameters. `BuildStatement` does this step by step, as
  the handler does. It is proved equal to the specification `Build`. The lemmas show four
  things about `Build`:
  - the placeholder count equals the parameter count;
  - the parameters follow the field order;
  - an empty filter gives the bare base statement;
  - the statement text depends on which fields are set and on nothing else, so no filter
    value ever reaches the text. `ParsePresence` reads the text back, which also proves that
    the text tells exactly which fields are set.
- `row_projector.dfy`: module `RowProjector`. It turns each result row into a fixed-shape
  `LogRow`. Column 0 gives the id: an integer is kept and anything else gives 0. Columns 1
  to 3 give key, value and timestamp: a text is kept and anything else gives "". A column
  that cannot be read also gets the default.
- `handlers.dfy`: module `Handlers`. `DrainCursor` is the handler's loop over the result
  cursor. It is proved against the recursive specification `Collect`. On reaching the end,
  the response holds the projections of all rows in cursor order, and the count equals the
  number of rows. A failure before the end turns the whole response into 400, with no
  partial list.
  `ExecuteQuery` is the whole `/query` handler. `AddLog` is the `/log` handler.
  `InsertStatement` is its insert. Its text is built from the column list key, value,
  timestamp and one `?` per column, and its i-th parameter is the entry's value for the i-th
  column. `InsertedRow` is the row a later query reads back, each column taken from the
  parameter the insert text binds to it; `InsertThenProject` shows that it projects back to
  the entry, its timestamp and its id.

The database engine is not modelled. `ExecuteQuery` takes it as a function from a
statement to either a failure or a cursor. A cursor is the sequence of answers that
successive `next` calls give: a row, the end, or a failure. Reading past the end of that
sequence gives the end. `AddLog` takes the engine's insert as a function that says whether
the insert succeeds. The current time becomes the `timestamp` string parameter.

`/query` accepts only the four-field filter record, and every row it returns is projected
to the fixed `LogRow` shape (integer id, three texts), whatever the column types are.

## Model

| member | source | states |
|---|---|---|
| QueryBuilder.BuildStatement | src/main.rs:69-90 | Starting from the base text and no parameters, and testing key, value_like, from and to in turn, gives exactly the statement `Build(q)`. |
| QueryBuilder.ApplyFilter | src/main.rs:72-90 | One `if let Some` step: the statement after testing one more field is the statement `BuiltAfter` specifies for the longer list of tested fields. |
| QueryBuilder.BuiltAfterSnoc | src/main.rs:72-90 | Testing a field that is set appends its clause to the text and its value to the parameters. Testing an unset field changes nothing. |
| QueryBuilder.PresentAmong | src/main.rs:72-90 | A field is among the tested fields that are set if and only if it is in the tested list and set in the filter. There are never more of them than fields tested. |
| QueryBuilder.ClauseShape | src/main.rs:73-88 | Every clause begins with ` AND `, ends with `?`, and holds exactly one `?`. |
| QueryBuilder.BaseHasNoPlaceholder | src/main.rs:69 | The base statement holds no `?`. |
| QueryBuilder.PlaceholdersMatchParams | src/main.rs:69-90 | The number of `?` in the statement text equals the number of parameters, and that number is at most 4. |
| QueryBuilder.EmptyFilter | src/main.rs:69-70 | The statement is the bare base text with no parameters if and only if no field is set. The parameters are empty if and only if the text is the base text. |
| QueryBuilder.ParamsInFieldOrder | src/main.rs:72-90 | The set fields come in the order key, value_like, from, to. A field is among them if and only if it is set. The i-th parameter is the value of the i-th set field. |
| QueryBuilder.ParseBuild | src/main.rs:69-90 | Reading a built statement's text back gives exactly the list of set fields, in order. |
| QueryBuilder.ParseClauseText | src/main.rs:72-90 | Reading back the clauses of any set of fields, tested in order, gives exactly those fields. |
| QueryBuilder.ClauseNotPrefix | src/main.rs:73-88 | No field's clause is a prefix of text that starts with another field's clause. |
| QueryBuilder.TextDependsOnlyOnPresence | src/main.rs:69-90 | Two filters give the same statement text if and only if they set the same fields, whatever their values. |
| QueryBuilder.BaseIsPrefix | src/main.rs:69-90 | Every statement starts with the base statement, followed by the clauses of the set fields. |
| QueryBuilder.Rank | src/main.rs:72-90 | Each field has a position in the order the handler tests the fields. |
| RowProjector.IdOf | src/main.rs:103-106 | A column that reads as an integer gives that integer as the id. A nonzero id comes only from a column that reads as that integer. Anything else gives 0. |
| RowProjector.TextOf | src/main.rs:107-118 | A column that reads as a text gives that text. A non-empty result comes only from a column that reads as that text. Anything else, including a read error, gives "". |
| RowProjector.ProjectStoredRow | src/main.rs:102-119 | A row shaped like a table row (integer id, then key, value and timestamp texts) projects back to exactly that log row, whatever columns follow. |
| RowProjector.ProjectReadsOwnColumn | src/main.rs:102-119 | id depends only on column 0, key only on column 1, value only on column 2 and timestamp only on column 3. |
| Handlers.FirstStop | src/main.rs:99-135 | Gives the position of the first cursor step that is not a row, or the cursor's length if every step is a row. |
| Handlers.CollectOutcome | src/main.rs:99-135 | The response succeeds if and only if the first non-row step is the end, or there is none. Otherwise the response is 400. |
| Handlers.CollectRows | src/main.rs:97-135 | A successful response holds one log row per cursor row before the end: the projection of that row, in cursor order. |
| Handlers.CollectStopsAtFirstStop | src/main.rs:99-135 | Steps after the end, or after a failure, never affect the response. |
| Handlers.DrainCursor | src/main.rs:97-137 | The loop's response equals `Collect(cursor)`. On success the counter equals the number of rows returned. |
| Handlers.ExecuteQuery | src/main.rs:65-138 | If the engine rejects the built statement, the response is 400. Otherwise the response is the drained cursor. |
| Handlers.InsertStatement | src/main.rs:50-56 | The insert text is the fixed insert into key, value and timestamp. It holds exactly one `?` per parameter, three in all. The i-th parameter is the entry's value for the i-th column the text names: key, value, then timestamp. |
| Handlers.InsertTextPlaceholders | src/main.rs:51 | The insert text holds exactly one `?` per column it inserts into. |
| Handlers.PlaceholderListCount | src/main.rs:51 | A list of n placeholders holds exactly n `?`. |
| Handlers.InsertTextSpelledOut | src/main.rs:51 | The insert text is `INSERT INTO logs (key, value, timestamp) VALUES (?, ?, ?)`. |
| QueryBuilder.BaseStatementSpelledOut | src/main.rs:69 | The base statement is `SELECT id, key, value, timestamp FROM logs WHERE 1=1`. |
| QueryBuilder.ColumnListAvoidsQuestionMark | src/main.rs:51 | A column list of names without `?` holds no `?`. |
| Handlers.IndexOf | src/main.rs:51 | A found position holds the name looked for. No position is found only for a name that is not in the list. |
| Handlers.InsertedRowProjects | src/main.rs:50-56 | The row read back after an insert projects to its id and the three parameters, in the order the insert text names key, value and timestamp. |
| Handlers.InsertThenProject | src/main.rs:50-56 | A row stored by the insert, with its columns filled from the parameters by the column names in the insert text and an id assigned, projects back to the entry's key and value, the timestamp and that id. |
| Handlers.AddLog | src/main.rs:40-62 | The answer is 201 if and only if the engine runs the insert. If the engine fails, the answer is 500. |

## Left out

- HTTP routing, axum extractors, status-code plumbing and the permissive CORS layer: these are framework wiring. The handlers return `Result` values and a `Status` with its code.
- Reading and creating the configuration file, opening the database and creating the table: this is I/O against libraries outside the model.
- Running SQL: the `LIKE` and comparison semantics belong to the database engine. The engine is a function parameter, so the model does not prove which rows match a filter.
- The wall clock: `chrono::Utc::now()` formatted as `%Y-%m-%d %H:%M:%S` becomes the `timestamp` parameter of `AddLog` and `InsertStatement`. Its format is not checked.
- The `println!` logging, including the first three rows and the total: nothing observable depends on it. `DrainCursor` still returns the counter it logs.
- JSON serialisation of each `LogRow` and its `unwrap_or(Null)` fallback: serialising a struct of an integer and three strings does not fail, so the response is modelled as the sequence of `LogRow` values.
- async/await and concurrent requests: each handler is modelled as one sequential call.
- DrainCursor: the counter is an unbounded `nat`. The source's counter is an inferred `i32` that would overflow after 2^31 - 1 rows.
- Reading a column index that the row does not have is modelled as a read error. The engine's actual behaviour for such an index is not part of this model.
