/** The source schema model: the records of the `schema` package that the
    converters read. Display names of columns (ColumnNames, ReferTableName,
    ReferColumnNames) are kept although the converters drop them. */
module SourceSchema {

  /** Referential actions a source foreign key may carry. */
  const FkRestrict: string := "RESTRICT"
  const FkCascade: string := "CASCADE"

  /** The source-side sequence kind for auto-increment columns. */
  const AutoIncrement: string := "AUTO_INCREMENT"

  datatype Key = Key(colId: string, desc: bool, order: int)

  datatype ForeignKey = ForeignKey(
    name: string,
    id: string,
    columnNames: seq<string>,
    colIds: seq<string>,
    referTableId: string,
    referTableName: string,
    referColumnIds: seq<string>,
    referColumnNames: seq<string>,
    onDelete: string,
    onUpdate: string)

  datatype Index = Index(
    name: string,
    unique: bool,
    keys: seq<Key>,
    id: string,
    storedColumnIds: seq<string>)

  datatype CheckConstraint = CheckConstraint(id: string, name: string, expr: string)

  datatype Table = Table(name: string, id: string, colIds: seq<string>, foreignKeys: seq<ForeignKey>)
}
