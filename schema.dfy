/**
 * The live database schema as far as the typed-row setters consult it, and
 * the typed-row wrapper through which the commands fill in a row.
 */
module Schema {
  import opened Notation

  /** For each table, the columns that the live schema version supports. A typed
      column outside its version range, or of a table the schema lacks, is absent. */
  datatype DatabaseSchema = DatabaseSchema(name: string, tables: map<string, set<string>>)

  predicate Supports(schema: DatabaseSchema, table: string, column: string) {
    table in schema.tables && column in schema.tables[table]
  }

  /** A typed row of one table: its setters record a column value, or raise a
      schema version mismatch when the live schema does not support the column. */
  class TypedRow {
    const schema: DatabaseSchema
    const table: string
    var columns: Row

    constructor (schema: DatabaseSchema, table: string)
      ensures this.schema == schema && this.table == table
      ensures columns == map[]
    {
      this.schema := schema;
      this.table := table;
      columns := map[];
    }

    /** Sets `column` to `value`; `ok` is false exactly when the setter raises,
        and then the row is left as it was. */
    method Set(column: string, value: Datum) returns (ok: bool)
      modifies this
      ensures ok <==> Supports(schema, table, column)
      ensures columns == if ok then old(columns)[column := value] else old(columns)
    {
      ok := Supports(schema, table, column);
      if ok {
        columns := columns[column := value];
      }
    }
  }
}
