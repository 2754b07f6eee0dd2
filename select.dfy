/**
 * The query step: `sqlselect` and `render`. The SQLite engine is not
 * modelled; it is a parameter that, given the loaded table and the SQL text,
 * either raises a failure or reports the result's column names and rows.
 */
module SelectSql {
  import opened Wrappers
  import opened Messages
  import opened Classifier

  /** A cell value. Values are carried from the engine to the output, never inspected. */
  datatype Value =
    | IntValue(i: int)
    | FloatValue(f: real)
    | TextValue(s: string)
    | TimestampValue(t: int)
    | NullValue

  /** A table: ordered column names and rows of values. */
  datatype Table = Table(columns: seq<string>, rows: seq<seq<Value>>)

  /** `pd.DataFrame()`: no columns and no rows. */
  const EMPTY_TABLE: Table := Table([], [])

  /** What `c.execute(sql)` followed by `c.description` and `c.fetchall()` gives. */
  datatype EngineOutcome =
    | Raised(failure: EngineFailure)
    | Executed(description: Option<seq<string>>, rows: seq<seq<Value>>)

  /** The module's return value: an output table or the messages explaining why there is none. */
  datatype RenderResult = RenderResult(table: Option<Table>, messages: seq<Message>)

  // ---------------------------------------------------------------------------
  // Blank SQL: `not sql.strip()`

  /** The characters `str.isspace` accepts in the ASCII and Latin-1 ranges. */
  predicate IsSpace(c: char)
  {
    c == ' ' || ('\t' <= c <= '\r') || ('\U{1c}' <= c <= '\U{1f}') || c == '\U{85}' || c == '\U{a0}'
  }

  /** `str.lstrip()`: drop leading whitespace. */
  function StripLeft(s: string): (r: string)
    ensures EndsWith(s, r)
    ensures r == [] || !IsSpace(r[0])
    ensures forall i :: 0 <= i < |s| - |r| ==> IsSpace(s[i])
  {
    if s != [] && IsSpace(s[0]) then StripLeft(s[1..]) else s
  }

  /** `str.rstrip()`: drop trailing whitespace. */
  function StripRight(s: string): (r: string)
    ensures StartsWith(s, r)
    ensures r == [] || !IsSpace(r[|r| - 1])
    ensures forall i :: |r| <= i < |s| ==> IsSpace(s[i])
  {
    if s != [] && IsSpace(s[|s| - 1]) then StripRight(s[..|s| - 1]) else s
  }

  /** Stripping both ends leaves nothing exactly when every character is whitespace. */
  lemma StripEmpty(s: string)
    ensures StripRight(StripLeft(s)) == [] <==> forall i :: 0 <= i < |s| ==> IsSpace(s[i])
  {
    var l := StripLeft(s);
    if exists k :: 0 <= k < |s| && !IsSpace(s[k]) {
      var k :| 0 <= k < |s| && !IsSpace(s[k]);
      assert |s| - |l| <= k;
      assert l[k - (|s| - |l|)] == s[k];
      assert StripRight(l) != [];
    }
  }

  /** `str.strip()`: empty exactly when the text is all whitespace. */
  function Strip(s: string): (r: string)
    ensures r == [] <==> forall i :: 0 <= i < |s| ==> IsSpace(s[i])
  {
    StripEmpty(s);
    StripRight(StripLeft(s))
  }

  // ---------------------------------------------------------------------------
  // The duplicate-column scan

  /** No name occurs twice. */
  ghost predicate Distinct(names: seq<string>)
  {
    forall i, j :: 0 <= i < j < |names| ==> names[i] != names[j]
  }

  /**
   * The first name, in scan order, that already occurred earlier: the name
   * at the least index `j` whose prefix `names[..j]` already holds it.
   */
  function FirstDuplicate(names: seq<string>): (r: Option<string>)
    ensures r.None? <==> Distinct(names)
    ensures r.Some? ==> exists j :: FirstRepeatAt(names, j) && names[j] == r.value
  {
    if names == [] then None
    else
      var init := names[..|names| - 1];
      var last := names[|names| - 1];
      assert init == names[..|init|];
      match FirstDuplicate(init)
      case Some(c) =>
        assert forall j :: 0 <= j < |init| ==> init[..j] == names[..j];
        Some(c)
      case None =>
        if last in init then Some(last) else None
  }

  /**
   * The loop of `sqlselect`: scan the names, remembering those seen in
   * `dupdetect`, and stop at the first one seen before.
   */
  method ScanColumnNames(colnames: seq<string>) returns (dup: Option<string>)
    ensures dup == FirstDuplicate(colnames)
  {
    var dupdetect: set<string> := {};
    for i := 0 to |colnames|
      invariant dupdetect == set k | 0 <= k < i :: colnames[k]
      invariant Distinct(colnames[..i])
    {
      var colname := colnames[i];
      if colname in dupdetect {
        assert colname in colnames[..i];
        FirstDuplicateAt(colnames, i);
        return Some(colname);
      }
      dupdetect := dupdetect + {colname};
      assert colnames[..i + 1] == colnames[..i] + [colname];
    }
    assert colnames[..|colnames|] == colnames;
    return None;
  }

  /** `names[j]` is a repeat and the names before it are all different. */
  ghost predicate FirstRepeatAt(names: seq<string>, j: int)
  {
    0 <= j < |names| && names[j] in names[..j] && Distinct(names[..j])
  }

  /** A name repeated before index `hi` makes the prefix up to `hi` non-distinct. */
  lemma RepeatBreaksDistinct(names: seq<string>, lo: int, hi: int)
    ensures 0 <= lo < hi <= |names| && names[lo] in names[..lo] ==> !Distinct(names[..hi])
  {
    if 0 <= lo < hi <= |names| && names[lo] in names[..lo] {
      var k :| 0 <= k < lo && names[..lo][k] == names[lo];
      assert names[..hi][k] == names[..hi][lo];
    }
  }

  /** At most one index is the first repeat. */
  lemma FirstRepeatUnique(names: seq<string>, i: int, j: int)
    requires FirstRepeatAt(names, i) && FirstRepeatAt(names, j)
    ensures i == j
  {
    RepeatBreaksDistinct(names, i, j);
    RepeatBreaksDistinct(names, j, i);
  }

  /** The index at which a distinct prefix first meets a repeat pins down `FirstDuplicate`. */
  lemma FirstDuplicateAt(names: seq<string>, i: nat)
    requires FirstRepeatAt(names, i)
    ensures FirstDuplicate(names) == Some(names[i])
  {
    var k :| 0 <= k < i && names[..i][k] == names[i];
    assert names[k] == names[i];
    var r := FirstDuplicate(names);
    var j :| FirstRepeatAt(names, j) && names[j] == r.value;
    FirstRepeatUnique(names, i, j);
  }

  // ---------------------------------------------------------------------------
  // sqlselect and render

  /**
   * `sqlselect`: a table without columns is answered with the empty table
   * before the engine is asked; otherwise an engine failure, a missing
   * result description and a repeated column name are each reported as one
   * message, and a clean result becomes the output table.
   */
  function SqlSelect(table: Table, sql: string, engine: (Table, string) -> EngineOutcome): (r: RenderResult)
    ensures r.table.None? <==> r.messages != []
    ensures |r.messages| <= 1
  {
    if |table.columns| == 0 then
      RenderResult(Some(EMPTY_TABLE), [])
    else
      match engine(table, sql)
      case Raised(failure) => RenderResult(None, FailureToMessages(failure))
      case Executed(None, _) => RenderResult(None, [COMMENTED_QUERY])
      case Executed(Some(colnames), rows) =>
        match FirstDuplicate(colnames)
        case Some(colname) => RenderResult(None, [DuplicateColumnName(colname)])
        case None => RenderResult(Some(Table(colnames, rows)), [])
  }

  /** `render`: blank SQL is refused before anything else is looked at. */
  function Render(table: Table, params: map<string, string>, engine: (Table, string) -> EngineOutcome): (r: RenderResult)
    requires "sql" in params
    ensures r.table.None? <==> r.messages != []
    ensures |r.messages| <= 1
  {
    var sql := params["sql"];
    if Strip(sql) == [] then RenderResult(None, [MISSING_QUERY])
    else SqlSelect(table, sql, engine)
  }

  /** Blank SQL yields only the missing-query message, whatever the table and the engine. */
  lemma RenderBlankSql(table: Table, params: map<string, string>, engine: (Table, string) -> EngineOutcome)
    requires "sql" in params
    requires forall i :: 0 <= i < |params["sql"]| ==> IsSpace(params["sql"][i])
    ensures Render(table, params, engine) == RenderResult(None, [MISSING_QUERY])
  {
  }

  /** On a table without columns, non-blank SQL yields the empty table, whatever the engine would do. */
  lemma RenderZeroColumns(table: Table, params: map<string, string>, engine: (Table, string) -> EngineOutcome)
    requires "sql" in params && |table.columns| == 0
    requires exists i :: 0 <= i < |params["sql"]| && !IsSpace(params["sql"][i])
    ensures Render(table, params, engine) == RenderResult(Some(EMPTY_TABLE), [])
  {
  }

  /**
   * The blank check comes first: on a table without columns, blank SQL is a
   * missing query while any other SQL gives the empty table.
   */
  lemma RenderBlankBeforeZeroColumns(table: Table, params: map<string, string>, engine: (Table, string) -> EngineOutcome)
    requires "sql" in params && |table.columns| == 0
    ensures Render(table, params, engine)
         == if forall i :: 0 <= i < |params["sql"]| ==> IsSpace(params["sql"][i])
            then RenderResult(None, [MISSING_QUERY])
            else RenderResult(Some(EMPTY_TABLE), [])
  {
  }

  /** An engine failure yields the classifier's single message and no table. */
  lemma SqlSelectFailure(table: Table, sql: string, engine: (Table, string) -> EngineOutcome)
    requires |table.columns| != 0 && engine(table, sql).Raised?
    ensures SqlSelect(table, sql, engine) == RenderResult(None, FailureToMessages(engine(table, sql).failure))
  {
  }

  /** A statement that produced no result description is reported as commented out. */
  lemma SqlSelectCommented(table: Table, sql: string, engine: (Table, string) -> EngineOutcome)
    requires |table.columns| != 0 && engine(table, sql).Executed? && engine(table, sql).description.None?
    ensures SqlSelect(table, sql, engine) == RenderResult(None, [COMMENTED_QUERY])
  {
  }

  /**
   * A result whose column names repeat is refused with the first repeated
   * name in scan order; one whose names are distinct becomes the output
   * table with those names, in order, and the engine's rows unchanged.
   */
  lemma SqlSelectColumns(table: Table, sql: string, engine: (Table, string) -> EngineOutcome)
    requires |table.columns| != 0
    requires engine(table, sql).Executed? && engine(table, sql).description.Some?
    ensures var names := engine(table, sql).description.value;
      && (Distinct(names) ==>
            SqlSelect(table, sql, engine) == RenderResult(Some(Table(names, engine(table, sql).rows)), []))
      && (!Distinct(names) ==>
            exists j :: FirstRepeatAt(names, j) &&
              SqlSelect(table, sql, engine) == RenderResult(None, [DuplicateColumnName(names[j])]))
  {
    var names := engine(table, sql).description.value;
    if !Distinct(names) {
      var r := FirstDuplicate(names);
      var j :| FirstRepeatAt(names, j) && names[j] == r.value;
      assert SqlSelect(table, sql, engine) == RenderResult(None, [DuplicateColumnName(names[j])]);
    }
  }

  /**
   * Non-blank SQL on a table with columns reaches the engine verbatim, and an
   * engine failure reaches the caller as the classifier's single message.
   */
  lemma RenderEngineFailure(table: Table, params: map<string, string>, engine: (Table, string) -> EngineOutcome)
    requires "sql" in params && |table.columns| != 0
    requires exists i :: 0 <= i < |params["sql"]| && !IsSpace(params["sql"][i])
    requires engine(table, params["sql"]).Raised?
    ensures Render(table, params, engine) == RenderResult(None, FailureToMessages(engine(table, params["sql"]).failure))
  {
  }
}
