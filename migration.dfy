/**
 * Upgrading stored module parameters. Version 0 carried a "run" entry (the
 * value of a button); version 1 has only "sql".
 */
module Migration {
  import SelectSql

  /** `_migrate_params_v0_to_v1`: keep the SQL text and nothing else. */
  function MigrateV0ToV1(params: map<string, string>): (r: map<string, string>)
    requires "sql" in params
    ensures r.Keys == {"sql"} && r["sql"] == params["sql"]
  {
    map["sql" := params["sql"]]
  }

  /**
   * `migrate_params`: the presence of "run" marks version 0. The result is
   * always in the version-1 shape, and every entry it has comes unchanged
   * from the input.
   */
  function MigrateParams(params: map<string, string>): (r: map<string, string>)
    requires "run" in params ==> "sql" in params
    ensures "run" !in r
    ensures forall k :: k in r ==> k in params && r[k] == params[k]
    ensures "sql" in params ==> "sql" in r
  {
    if "run" in params then MigrateV0ToV1(params) else params
  }

  /** A version-0 parameter set is reduced to its SQL text. */
  lemma MigrateVersion0(params: map<string, string>)
    requires "run" in params && "sql" in params
    ensures MigrateParams(params) == map["sql" := params["sql"]]
  {
  }

  /** Parameters without "run" are returned unchanged. */
  lemma MigrateVersion1(params: map<string, string>)
    requires "run" !in params
    ensures MigrateParams(params) == params
  {
  }

  /** Migrating twice is migrating once. */
  lemma MigrateIdempotent(params: map<string, string>)
    requires "run" in params ==> "sql" in params
    ensures MigrateParams(MigrateParams(params)) == MigrateParams(params)
  {
  }

  /** Every entry other than "sql" is dropped from version-0 parameters, not only "run". */
  lemma MigrateDropsOtherEntries(params: map<string, string>, k: string)
    requires "run" in params && "sql" in params && k != "sql"
    ensures k !in MigrateParams(params)
  {
  }

  /** Migration never changes what `render` does with the parameters. */
  lemma RenderAfterMigration(table: SelectSql.Table, params: map<string, string>,
                             engine: (SelectSql.Table, string) -> SelectSql.EngineOutcome)
    requires "sql" in params
    ensures SelectSql.Render(table, MigrateParams(params), engine) == SelectSql.Render(table, params, engine)
  {
  }
}
