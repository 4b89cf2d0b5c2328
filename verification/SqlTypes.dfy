/** The vocabulary of packages/sql-guard: verdicts and policies (src/types.ts) and the allowlists
    (src/allowlist.ts, src/functions.ts). */
module SqlTypes {
  import opened Schema

  datatype DenyCode =
    | EParse | EEmpty | ENulByte | EMultiStatement | ENotSelect
    | ENodeNotAllowed | EFieldNotAllowed | EFunctionNotAllowed | ESchemaNotAllowed | ETableNotAllowed
    | EDepthExceeded | ELimitNotStatic | ELimitNotEnforceable | ERoundTripFailed | EInternal

  datatype TableRef = TableRef(schema: Option<string>, name: string)

  datatype Policy = Policy(
    allowedSchemas: Option<seq<string>>,
    allowedTables: Option<seq<string>>,
    maxDepth: Option<int>,
    maxRows: Option<real>)

  datatype Verdict =
    | Allowed(sql: string, tables: seq<TableRef>, rowLimit: Option<real>)
    | Denied(code: DenyCode)

  /** The allowlists as one value. `lower` is the runtime's case folding. */
  datatype Allowlists = Allowlists(
    tags: set<string>,
    fields: map<string, set<string>>,
    functions: set<string>,
    functionSchemas: set<string>,
    lower: string -> string)

  const ALLOWED_TAGS: set<string> := {
    "A_ArrayExpr", "A_Const", "A_Expr", "A_Indices", "A_Indirection", "A_Star", "Alias", "BoolExpr",
    "BooleanTest", "CaseExpr", "CaseWhen", "CoalesceExpr", "CollateClause", "ColumnRef", "CommonTableExpr",
    "Float", "FuncCall", "GroupingSet", "Integer", "JoinExpr", "List", "MinMaxExpr", "NullTest", "ParamRef",
    "RangeFunction", "RangeSubselect", "RangeVar", "ResTarget", "RowExpr", "SelectStmt", "SortBy", "String",
    "SubLink", "TypeCast", "TypeName", "WindowDef", "WithClause"
  }

  const ALLOWED_FUNCTIONS: set<string> := {
    "count", "sum", "avg", "min", "max", "array_agg", "string_agg", "bool_and", "bool_or", "every", "stddev",
    "stddev_pop", "stddev_samp", "variance", "var_pop", "var_samp", "corr", "percentile_cont",
    "percentile_disc", "mode", "row_number", "rank", "dense_rank", "percent_rank", "cume_dist", "ntile",
    "lag", "lead", "first_value", "last_value", "nth_value", "date_trunc", "date_part", "date_bin",
    "extract", "age", "now", "current_date", "current_time", "current_timestamp", "localtime",
    "localtimestamp", "to_char", "to_date", "to_timestamp", "to_number", "make_date", "make_time",
    "make_timestamp", "make_interval", "justify_interval", "generate_series", "timezone", "lower", "upper",
    "initcap", "trim", "btrim", "ltrim", "rtrim", "length", "char_length", "character_length",
    "octet_length", "substr", "substring", "left", "right", "lpad", "rpad", "concat", "concat_ws",
    "split_part", "replace", "reverse", "repeat", "position", "strpos", "starts_with", "md5", "encode",
    "regexp_replace", "regexp_match", "regexp_matches", "regexp_split_to_array", "abs", "round", "ceil",
    "ceiling", "floor", "trunc", "sign", "power", "sqrt", "cbrt", "exp", "ln", "log", "log10", "mod", "div",
    "greatest", "least", "width_bucket", "coalesce", "nullif", "cast", "array_length", "array_position",
    "array_to_string", "cardinality", "unnest", "jsonb_array_length", "jsonb_each_text", "jsonb_object_keys",
    "jsonb_extract_path_text", "json_extract_path_text", "jsonb_typeof", "to_jsonb"
  }

  const ALLOWED_FUNCTION_SCHEMAS: set<string> := {"pg_catalog"}

  const ALLOWED_FIELDS: map<string, set<string>> := map[
    "A_ArrayExpr" := {"elements", "location", "list_start", "list_end"},
    "A_Const" := {"ival", "sval", "fval", "boolval", "bsval", "isnull", "location"},
    "A_Expr" := {"kind", "lexpr", "rexpr", "name", "location", "rexpr_list_start", "rexpr_list_end"},
    "A_Indices" := {"is_slice", "lidx", "uidx"},
    "A_Indirection" := {"arg", "indirection"},
    "A_Star" := {},
    "Alias" := {"aliasname", "colnames"},
    "BoolExpr" := {"boolop", "args", "location"},
    "BooleanTest" := {"arg", "booltesttype", "location"},
    "CaseExpr" := {"arg", "args", "defresult", "location"},
    "CaseWhen" := {"expr", "result", "location"},
    "CoalesceExpr" := {"args", "location"},
    "CollateClause" := {"arg", "collname", "location"},
    "ColumnRef" := {"fields", "location"},
    "CommonTableExpr" := {"ctename", "ctequery", "ctematerialized", "aliascolnames", "location"},
    "Float" := {"fval"},
    "FuncCall" := {
      "funcname", "args", "agg_order", "agg_filter", "agg_within_group", "agg_star", "agg_distinct",
      "func_variadic", "over", "funcformat", "location", "name", "orderClause", "partitionClause",
      "frameOptions", "startOffset", "endOffset"},
    "GroupingSet" := {"kind", "content", "location"},
    "Integer" := {"ival"},
    "JoinExpr" := {"jointype", "isNatural", "larg", "rarg", "usingClause", "quals", "alias", "join_using_alias"},
    "List" := {"items"},
    "MinMaxExpr" := {"op", "args", "location"},
    "NullTest" := {"arg", "nulltesttype", "location"},
    "ParamRef" := {"number", "location"},
    "RangeFunction" := {"lateral", "ordinality", "is_rowsfrom", "functions", "alias", "aliasname", "coldeflist"},
    "RangeSubselect" := {"lateral", "subquery", "alias", "aliasname"},
    "RangeVar" := {
      "catalogname", "schemaname", "relname", "inh", "relpersistence", "alias", "aliasname", "location"},
    "ResTarget" := {"name", "indirection", "val", "location"},
    "RowExpr" := {"args", "row_format", "colnames", "location"},
    "SelectStmt" := {
      "distinctClause", "targetList", "fromClause", "whereClause", "groupClause", "groupDistinct",
      "havingClause", "windowClause", "valuesLists", "sortClause", "limitOffset", "limitCount",
      "limitOption", "withClause", "op", "all", "larg", "rarg", "ctes"},
    "SortBy" := {"node", "sortby_dir", "sortby_nulls", "useOp", "location"},
    "String" := {"sval"},
    "SubLink" := {"subLinkType", "subLinkId", "testexpr", "operName", "subselect", "location"},
    "TypeCast" := {
      "arg", "typeName", "location", "names", "typemod", "setof", "pct_type", "typmods", "arrayBounds"},
    "TypeName" := {"names", "typeOid", "setof", "pct_type", "typmods", "typemod", "arrayBounds", "location"},
    "WindowDef" := {
      "name", "refname", "partitionClause", "orderClause", "frameOptions", "startOffset", "endOffset",
      "location"},
    "WithClause" := {"ctes", "recursive", "location"}
  ]

  function SourceLists(lower: string -> string): Allowlists {
    Allowlists(ALLOWED_TAGS, ALLOWED_FIELDS, ALLOWED_FUNCTIONS, ALLOWED_FUNCTION_SCHEMAS, lower)
  }
}
