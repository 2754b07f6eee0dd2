/**
 * User-facing diagnostics. A message is either a translatable message, known
 * by its identifier and named parameters, or a plain string that is shown
 * untranslated (the engine's own English wording).
 */
module Messages {

  datatype Message =
    | Trans(id: string, params: map<string, string>)
    | Plain(text: string)

  /** The SQL text was empty or only whitespace. */
  const MISSING_QUERY: Message := Trans("badParam.sql.missing", map[])

  /** The engine ran the text but it produced no result set (e.g. all comment). */
  const COMMENTED_QUERY: Message := Trans("badValue.sql.commentedQuery", map[])

  /** More than one statement was given. */
  const TOO_MANY_COMMANDS: Message := Trans("badValue.sql.tooManyCommands", map[])

  /** The query named a table other than the single one loaded, "input". */
  const INVALID_TABLE_NAME: Message :=
    Trans("badValue.sql.invalidTableName", map["table_name" := "input"])

  /** The query would produce two columns called `colname`. */
  function DuplicateColumnName(colname: string): Message
  {
    Trans("badValue.sql.duplicateColumnName", map["colname" := colname])
  }
}
