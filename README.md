# selectsql, modelled in Dafny

`selectsql` is a data-pipeline module. It runs one SQL `SELECT` statement
against its single input table, which is loaded into an in-memory SQLite
database under the name `input`. When it returns, it gives either the result
as a table or one user-facing message saying why there is no table. Some engine
errors are not caught and propagate out of `render` instead (see "## Left out"). This project models the
decisions the module makes around the engine call and proves their properties:

- the two error classifiers that turn an engine exception into a message;
- the order of checks in `render` and `sqlselect`:
  1. blank SQL;
  2. a table without columns;
  3. an engine failure;
  4. a statement without a result description;
  5. a repeated column name;
  6. success;
- the duplicate-column scan, as a loop over the names that grows the set `dupdetect`;
- the migration of version-0 parameters to version 1.

The SQLite engine is a parameter, `engine: (Table, string) -> EngineOutcome`. It
receives the loaded table and the SQL text verbatim. It either raises a failure
(`DatabaseError`, flagged when it is an `OperationalError`, or `Warning`) or
reports the result's column names (absent when there is no result set) and the
rows. The lemmas quantify over every engine. So "the engine is not consulted"
on the blank-SQL and no-column paths is stated as "the result is the same for
every engine".

Files: `wrappers.dfy` (Option), `messages.dfy` (the messages and their
identifiers), `classifier.dfy` (the two classifiers), `select.dfy` (`strip`,
the duplicate scan, `sqlselect`, `render`), `migration.dfy` (parameter
migration).

Behaviour worth noting:

- `render` checks for blank SQL before `sqlselect` checks for zero columns, so
  blank SQL on a table without columns gives the missing-query message
  (`RenderBlankBeforeZeroColumns`).
- Only an absent description (`None`) is treated as a commented-out query. An
  empty list of column names passes the duplicate scan and gives an output
  table without columns.
- The version-0 migration keeps only `sql` and drops every other entry, not
  just `run` (`MigrateDropsOtherEntries`).
- The missing-table hint is given for `OperationalError` only, while the
  `"near "` rule applies to every `DatabaseError`.

## Model

| member | source | states |
|---|---|---|
| `Classifier.DatabaseErrorToMessages` | selectsql.py:9-26 | exactly one message; it is translatable exactly when the error is operational and its text starts with "no such table: "; otherwise it is plain text that ends with the engine's text |
| `Classifier.WarningToMessages` | selectsql.py:29-38 | exactly one message; translatable exactly when the text is the one-statement warning, otherwise the text verbatim |
| `Classifier.FailureToMessages` | selectsql.py:57-62 | an engine failure of either class gives exactly one message |
| `Classifier.MissingTableHint` | selectsql.py:12-21 | an operational "no such table: X" error gives `badValue.sql.invalidTableName` with `table_name` = "input", whatever X is |
| `Classifier.MissingTableNotOperational` | selectsql.py:12-26 | the same text in a non-operational database error is passed through verbatim |
| `Classifier.PrefixRulesExclusive` | selectsql.py:12-23 | no error text starts with both "no such table: " and "near ", so the order of the first two rules never matters |
| `Classifier.SyntaxErrorPassThrough` | selectsql.py:23-24 | a database error of either class whose text starts with "near " gives exactly `[Plain("SQL error " + text)]` |
| `Classifier.GenericErrorPassThrough` | selectsql.py:26 | any other database error gives exactly `[Plain(text)]` |
| `Classifier.TooManyStatements` | selectsql.py:30-36 | the warning "You can only execute one statement at a time." gives `badValue.sql.tooManyCommands` |
| `SelectSql.StripLeft` | selectsql.py:100 | the result is a suffix of the input, does not start with whitespace, and everything dropped is whitespace |
| `SelectSql.StripRight` | selectsql.py:100 | the result is a prefix of the input, does not end with whitespace, and everything dropped is whitespace |
| `SelectSql.Strip` | selectsql.py:100 | `sql.strip()` is empty exactly when every character of `sql` is whitespace |
| `SelectSql.FirstDuplicate` | selectsql.py:77-90 | no duplicate exactly when the names are pairwise distinct; a reported name sits at an index where it already occurred and every earlier name is distinct, so it is the first repeat in scan order |
| `SelectSql.FirstDuplicateAt` | selectsql.py:78-89 | the first index whose name was already seen determines the reported duplicate |
| `SelectSql.ScanColumnNames` | selectsql.py:75-90 | the loop with its set `dupdetect` returns exactly the first repeated name, or none when the names are distinct |
| `SelectSql.SqlSelect` | selectsql.py:49-95 | on every path the table is absent exactly when there is a message, and there is at most one message |
| `SelectSql.Render` | selectsql.py:98-106 | on every path the table is absent exactly when there is a message, and there is at most one message |
| `SelectSql.RenderBlankSql` | selectsql.py:100-104 | all-whitespace SQL gives `(None, [badParam.sql.missing])` for every table and every engine |
| `SelectSql.RenderZeroColumns` | selectsql.py:50-51 | non-blank SQL on a table without columns gives the empty table and no messages, for every engine |
| `SelectSql.RenderBlankBeforeZeroColumns` | selectsql.py:98-106 | on a table without columns, blank SQL gives the missing-query message and any other SQL gives the empty table, for every engine |
| `SelectSql.SqlSelectFailure` | selectsql.py:57-62 | an engine failure gives no table and the classifier's message |
| `SelectSql.RenderEngineFailure` | selectsql.py:98-106 | non-blank SQL on a table with columns reaches the engine verbatim, and an engine failure gives no table and the classifier's message |
| `SelectSql.SqlSelectCommented` | selectsql.py:64-73 | a result without a description gives `(None, [badValue.sql.commentedQuery])` |
| `SelectSql.SqlSelectColumns` | selectsql.py:75-95 | distinct names give the output table with those names in order, the engine's rows unchanged and no messages; repeated names give `(None, [badValue.sql.duplicateColumnName])` with `colname` = the first repeat in scan order |
| `Migration.MigrateV0ToV1` | selectsql.py:109-114 | the result has the single key "sql", holding the input's SQL text |
| `Migration.MigrateParams` | selectsql.py:117-120 | the result never has "run"; every entry it has comes unchanged from the input; "sql" survives |
| `Migration.MigrateVersion0` | selectsql.py:117-119 | parameters with "run" become exactly `{"sql": params["sql"]}` |
| `Migration.MigrateVersion1` | selectsql.py:117-120 | parameters without "run" are returned unchanged |
| `Migration.MigrateIdempotent` | selectsql.py:117-120 | migrating twice equals migrating once |
| `Migration.MigrateDropsOtherEntries` | selectsql.py:114 | every key other than "sql" is absent after migrating parameters that have "run" |
| `Migration.RenderAfterMigration` | selectsql.py:98-120 | `render` gives the same result on migrated and unmigrated parameters |

## Left out

- The SQLite engine: parsing and running the statement, and the wording of its errors (selectsql.py:53-62). It is the `engine` parameter.
- pandas: loading the table with `to_sql` and building the result with `from_records` (selectsql.py:54, 95). The rows the engine reports become the output rows unchanged. Value conversion is not modelled: timestamps, Unicode text and float round-trips. A failure inside `to_sql` is not modelled either, e.g. for duplicate input column names.
- SqlSelect, Render: exceptions that escape `render` are not modelled, so the "on every path" contracts cover only the paths that return. `c.fetchall()` (selectsql.py:93) runs outside the `try` of selectsql.py:57-62, so an error SQLite raises while producing a later row propagates to the caller. An exception from `c.execute` that is neither `DatabaseError` nor `Warning` propagates too. No `EngineOutcome` stands for these cases.
- Connection and cursor lifetime: `_deleting_cursor` and the `with sqlite3.connect(...)` block (selectsql.py:41-46, 53). This is resource plumbing with no effect on the result.
- The column descriptor tuples: only their first field, the name, is used (selectsql.py:75), so the description is modelled as the list of names.
- The English default text of each translatable message and its rendering by the i18n layer. A message is its identifier and parameters.
- `str(err)` is taken to equal `err.args[0]`, the engine's single error text.
- `SelectSql.IsSpace`: Python's `str.strip()` removes every Unicode whitespace character. The model knows only the ASCII ones (space, tab to carriage return, U+001C to U+001F), U+0085 and U+00A0.
- Missing "sql" in `render`'s parameters, or "run" without "sql" in `migrate_params`: the code raises `KeyError`. These are preconditions of `Render`, `MigrateV0ToV1` and `MigrateParams`.
- setup.py: packaging metadata only.
