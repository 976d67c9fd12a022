/** The target (Spanner) schema model: the records of the `ddl` package that the
    converters and the fixture generators produce. Only the fields these operations
    read or write are kept. */
module Ddl {

  /** The column type name of every generated column. */
  const Int64: string := "INT64"

  /** The referential action every converted foreign key carries. */
  const FkNoAction: string := "NO ACTION"

  /** The target's sequence kind. */
  const BitReversedPositive: string := "BIT REVERSED POSITIVE"

  datatype Type = Type(name: string, len: int)

  datatype ColumnDef = ColumnDef(name: string, id: string, t: Type)

  /** One key column: column id, descending flag and ordinal position. */
  datatype IndexKey = IndexKey(colId: string, desc: bool, order: int)

  datatype ForeignKey = ForeignKey(
    name: string,
    colIds: seq<string>,
    referTableId: string,
    referColumnIds: seq<string>,
    id: string,
    onDelete: string,
    onUpdate: string)

  datatype CreateIndex = CreateIndex(
    name: string,
    tableId: string,
    unique: bool,
    keys: seq<IndexKey>,
    id: string,
    storedColumnIds: seq<string>)

  datatype CheckConstraint = CheckConstraint(id: string, name: string, expr: string, exprId: string)

  datatype Sequence = Sequence(
    name: string,
    id: string,
    sequenceKind: string,
    skipRangeMin: string,
    skipRangeMax: string,
    startWithCounter: string)

  datatype CreateTable = CreateTable(
    name: string,
    id: string,
    colIds: seq<string>,
    colDefs: map<string, ColumnDef>,
    primaryKeys: seq<IndexKey>,
    foreignKeys: seq<ForeignKey>,
    indexes: seq<CreateIndex>,
    checkConstraints: seq<CheckConstraint>)

  /** A schema maps table ids to tables. */
  type Schema = map<string, CreateTable>

  /** Every primary-key column is a declared column of the table. */
  predicate PrimaryKeysDeclared(t: CreateTable) {
    forall k :: k in t.primaryKeys ==> k.colId in t.colIds && k.colId in t.colDefs
  }
}
