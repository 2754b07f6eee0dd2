/**
 * Turning an engine failure into exactly one message. SQLite reports its
 * failures as exceptions whose single argument is the English error text;
 * here a failure is that text together with its exception class.
 */
module Classifier {
  import opened Messages

  /** An exception raised by the engine while executing the statement. */
  datatype EngineFailure =
    | DatabaseError(operational: bool, text: string) // sqlite3.DatabaseError; `operational` for its OperationalError subclass
    | Warning(text: string)                          // sqlite3.Warning

  const NO_SUCH_TABLE := "no such table: "
  const NEAR := "near "
  const SQL_ERROR := "SQL error "
  const ONE_STATEMENT := "You can only execute one statement at a time."

  predicate StartsWith(s: string, prefix: string)
  {
    |prefix| <= |s| && s[..|prefix|] == prefix
  }

  predicate EndsWith(s: string, suffix: string)
  {
    |suffix| <= |s| && s[|s| - |suffix|..] == suffix
  }

  /**
   * `_database_error_to_messages`: a missing table (operational errors only)
   * becomes the hint that "input" is the only table; every other failure is
   * passed through in the engine's wording, syntax errors with a "SQL error "
   * prefix.
   */
  function DatabaseErrorToMessages(operational: bool, text: string): (r: seq<Message>)
    ensures |r| == 1
    ensures r[0].Trans? <==> operational && StartsWith(text, NO_SUCH_TABLE)
    ensures r[0].Plain? ==> EndsWith(r[0].text, text)
  {
    if operational && StartsWith(text, NO_SUCH_TABLE) then
      [INVALID_TABLE_NAME]
    else if StartsWith(text, NEAR) then
      assert (SQL_ERROR + text)[|SQL_ERROR|..] == text;
      [Plain(SQL_ERROR + text)]
    else
      [Plain(text)]
  }

  /**
   * `_database_warning_to_messages`: the engine's refusal to run several
   * statements becomes a translatable message; any other warning is passed
   * through verbatim.
   */
  function WarningToMessages(text: string): (r: seq<Message>)
    ensures |r| == 1
    ensures r[0].Trans? <==> text == ONE_STATEMENT
    ensures r[0].Plain? ==> r[0] == Plain(text)
  {
    if text == ONE_STATEMENT then [TOO_MANY_COMMANDS] else [Plain(text)]
  }

  /** The two `except` clauses around `c.execute(sql)`. */
  function FailureToMessages(f: EngineFailure): (r: seq<Message>)
    ensures |r| == 1
  {
    match f
    case DatabaseError(operational, text) => DatabaseErrorToMessages(operational, text)
    case Warning(text) => WarningToMessages(text)
  }

  /** A missing-table error always yields the same hint, whatever table the query named. */
  lemma MissingTableHint(queried: string)
    ensures DatabaseErrorToMessages(true, NO_SUCH_TABLE + queried) == [INVALID_TABLE_NAME]
  {
    assert (NO_SUCH_TABLE + queried)[..|NO_SUCH_TABLE|] == NO_SUCH_TABLE;
  }

  /** The missing-table hint is given for operational errors only. */
  lemma MissingTableNotOperational(queried: string)
    ensures DatabaseErrorToMessages(false, NO_SUCH_TABLE + queried) == [Plain(NO_SUCH_TABLE + queried)]
  {
    var text := NO_SUCH_TABLE + queried;
    assert text[1] == 'o';
  }

  /** No error text matches both the missing-table and the syntax-error rule. */
  lemma PrefixRulesExclusive(text: string)
    ensures !(StartsWith(text, NO_SUCH_TABLE) && StartsWith(text, NEAR))
  {
    if 2 <= |text| {
      assert StartsWith(text, NO_SUCH_TABLE) ==> text[1] == text[..|NO_SUCH_TABLE|][1] == 'o';
      assert StartsWith(text, NEAR) ==> text[1] == text[..|NEAR|][1] == 'e';
    }
  }

  /** A syntax error of any database-error class is passed through behind "SQL error ". */
  lemma SyntaxErrorPassThrough(operational: bool, text: string)
    requires StartsWith(text, NEAR)
    ensures DatabaseErrorToMessages(operational, text) == [Plain(SQL_ERROR + text)]
  {
    PrefixRulesExclusive(text);
  }

  /** Any other database error is passed through verbatim. */
  lemma GenericErrorPassThrough(operational: bool, text: string)
    requires !(operational && StartsWith(text, NO_SUCH_TABLE))
    requires !StartsWith(text, NEAR)
    ensures DatabaseErrorToMessages(operational, text) == [Plain(text)]
  {
  }

  /** The one-statement warning becomes the "too many commands" message. */
  lemma TooManyStatements()
    ensures WarningToMessages(ONE_STATEMENT) == [TOO_MANY_COMMANDS]
    ensures FailureToMessages(Warning(ONE_STATEMENT)) == [TOO_MANY_COMMANDS]
  {
  }
}
