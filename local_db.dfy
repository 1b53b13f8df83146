/** The local SQLite tables that the sync and purge daemons work on: Inflow
    (cash-register sessions) and Sale. Each row has the local primary key
    `local_id`, the `is_synced` flag, and its other columns by name. */
module LocalDb {
  import opened JsValues
  import opened Seqs

  const LocalIdColumn := "local_id"
  const IsSyncedColumn := "is_synced"

  datatype Row = Row(localId: int, isSynced: bool, columns: map<string, Json>)

  /** The two columns that only the local database uses. */
  predicate WellFormed(row: Row) {
    LocalIdColumn !in row.columns && IsSyncedColumn !in row.columns
  }

  function LocalIdOf(row: Row): int { row.localId }

  predicate IsUnsynced(row: Row) { !row.isSynced }

  /** `row.toJSON()`: every column of the row as one object. */
  function ToJson(row: Row): (r: map<string, Json>)
    ensures r.Keys == row.columns.Keys + {LocalIdColumn, IsSyncedColumn}
    ensures r[LocalIdColumn] == Num(row.localId) && r[IsSyncedColumn] == Bool(row.isSynced)
  {
    row.columns[LocalIdColumn := Num(row.localId)][IsSyncedColumn := Bool(row.isSynced)]
  }

  /** The value of a column that SQL compares: a missing column and NULL
      are both NULL (None). */
  function SqlValue(row: Row, column: string): Option<Json> {
    if column in row.columns && row.columns[column] != Null && row.columns[column] != Undefined
    then Some(row.columns[column])
    else None
  }

  /** `column < bound` in a WHERE clause on a time column (milliseconds):
      false when the column is NULL. */
  predicate ColumnBefore(row: Row, column: string, bound: int) {
    var v := SqlValue(row, column);
    v.Some? && v.value.Num? && v.value.n < bound
  }

  class LocalDatabase {
    var inflows: seq<Row>
    var sales: seq<Row>

    /** `local_id` is the primary key of both tables. */
    ghost predicate Valid()
      reads this
    {
      DistinctKeys(inflows, LocalIdOf) && DistinctKeys(sales, LocalIdOf) &&
      (forall i :: 0 <= i < |inflows| ==> WellFormed(inflows[i])) &&
      (forall i :: 0 <= i < |sales| ==> WellFormed(sales[i]))
    }

    constructor (inflows0: seq<Row>, sales0: seq<Row>)
      ensures inflows == inflows0 && sales == sales0
    {
      inflows := inflows0;
      sales := sales0;
    }
  }
}
