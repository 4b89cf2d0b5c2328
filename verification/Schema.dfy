/** The records that several components share: packages/core/src/introspect/types.ts and
    packages/core/src/semantic/types.ts. An optional property is an Option. */
module Schema {

  datatype Option<+T> = None | Some(value: T) {
    function GetOr(default: T): T {
      match this
      case Some(v) => v
      case None => default
    }
  }

  datatype Result<+T, +E> = Ok(value: T) | Err(error: E)

  datatype ColumnInfo = ColumnInfo(name: string, dataType: string, nullable: bool, comment: Option<string>)

  datatype TableInfo = TableInfo(
    schema: string,
    name: string,
    kind: string,
    comment: Option<string>,
    columns: seq<ColumnInfo>,
    primaryKey: seq<string>)

  datatype ForeignKeyEnd = ForeignKeyEnd(schema: string, table: string, columns: seq<string>)

  datatype ForeignKey = ForeignKey(source: ForeignKeyEnd, target: ForeignKeyEnd)

  datatype GlossaryRef = GlossaryRef(schema: Option<string>, table: string, columns: Option<seq<string>>)

  datatype GlossaryEntry = GlossaryEntry(
    term: string,
    synonyms: Option<seq<string>>,
    definition: Option<string>,
    sql: Option<string>,
    refs: Option<seq<GlossaryRef>>)
}
