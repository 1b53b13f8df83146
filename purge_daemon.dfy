/** The daily purge job (purge-daemon.js): deletes synced sales and synced,
    closed inflows that are more than two days old. */
module PurgeDaemon {
  import opened JsValues
  import opened Seqs
  import opened LocalDb

  const DayMs := 24 * 60 * 60 * 1000
  const SaleDateColumn := "sale_date"
  const StartTimeColumn := "start_time"
  const EndTimeColumn := "end_time"

  /** `Date.now() - 2 * 24 * 60 * 60 * 1000`. */
  function Cutoff(now: int): (cutoff: int)
    ensures cutoff == now - 172800000
  {
    now - 2 * DayMs
  }

  /** The WHERE clause of the Sale delete: `is_synced = true AND
      sale_date < cutoff`. */
  predicate SaleExpired(row: Row, cutoff: int)
    ensures SaleExpired(row, cutoff) ==> row.isSynced
    ensures SqlValue(row, SaleDateColumn).None? ==> !SaleExpired(row, cutoff)
  {
    row.isSynced && ColumnBefore(row, SaleDateColumn, cutoff)
  }

  /** The WHERE clause of the Inflow delete: `is_synced = true AND end_time
      IS NOT NULL AND start_time < cutoff`. */
  predicate InflowExpired(row: Row, cutoff: int)
    ensures InflowExpired(row, cutoff) ==> row.isSynced && SqlValue(row, EndTimeColumn).Some?
    ensures SqlValue(row, StartTimeColumn).None? ==> !InflowExpired(row, cutoff)
  {
    row.isSynced && SqlValue(row, EndTimeColumn).Some? && ColumnBefore(row, StartTimeColumn, cutoff)
  }

  function KeepSale(cutoff: int): Row -> bool {
    row => !SaleExpired(row, cutoff)
  }

  function KeepInflow(cutoff: int): Row -> bool {
    row => !InflowExpired(row, cutoff)
  }

  /** The Sale table after `SaleModel.destroy`. */
  function PurgeSales(sales: seq<Row>, cutoff: int): (r: seq<Row>)
    ensures forall i :: 0 <= i < |r| ==> r[i] in sales && !SaleExpired(r[i], cutoff)
    ensures forall i :: 0 <= i < |sales| && !SaleExpired(sales[i], cutoff) ==> sales[i] in r
  {
    FilterKeepsAll(sales, KeepSale(cutoff));
    Filter(sales, KeepSale(cutoff))
  }

  /** The Inflow table after `InflowModel.destroy`. */
  function PurgeInflows(inflows: seq<Row>, cutoff: int): (r: seq<Row>)
    ensures forall i :: 0 <= i < |r| ==> r[i] in inflows && !InflowExpired(r[i], cutoff)
    ensures forall i :: 0 <= i < |inflows| && !InflowExpired(inflows[i], cutoff) ==> inflows[i] in r
  {
    FilterKeepsAll(inflows, KeepInflow(cutoff));
    Filter(inflows, KeepInflow(cutoff))
  }

  /** An unsynced sale is never deleted, and neither is one dated exactly
      at the cutoff. */
  lemma SaleSurvives(sales: seq<Row>, now: int, j: nat)
    requires j < |sales|
    requires !sales[j].isSynced || SqlValue(sales[j], SaleDateColumn) == Some(Num(Cutoff(now)))
    ensures sales[j] in PurgeSales(sales, Cutoff(now))
  {
  }

  /** An unsynced inflow is never deleted, nor is one still open (no
      end time). */
  lemma InflowSurvives(inflows: seq<Row>, now: int, j: nat)
    requires j < |inflows|
    requires !inflows[j].isSynced || SqlValue(inflows[j], EndTimeColumn).None?
    ensures inflows[j] in PurgeInflows(inflows, Cutoff(now))
  {
  }

  /** A second purge with the same cutoff deletes nothing. */
  lemma PurgeIdempotent(sales: seq<Row>, inflows: seq<Row>, cutoff: int)
    ensures PurgeSales(PurgeSales(sales, cutoff), cutoff) == PurgeSales(sales, cutoff)
    ensures PurgeInflows(PurgeInflows(inflows, cutoff), cutoff) == PurgeInflows(inflows, cutoff)
  {
    FilterIdempotent(sales, KeepSale(cutoff));
    FilterIdempotent(inflows, KeepInflow(cutoff));
  }

  /** `purgeOldSyncedData(sequelizeLocal)` at time `now`: nothing without a
      database; otherwise the sales are deleted first, and a delete that
      throws ends the job. */
  method PurgeOldSyncedData(db: LocalDatabase?, now: int, salesDeleteThrows: bool, inflowsDeleteThrows: bool)
    requires db != null ==> db.Valid()
    modifies db
    ensures db != null ==> db.Valid()
    ensures db != null ==> db.sales == if salesDeleteThrows then old(db.sales) else PurgeSales(old(db.sales), Cutoff(now))
    ensures db != null ==>
      db.inflows == if salesDeleteThrows || inflowsDeleteThrows then old(db.inflows) else PurgeInflows(old(db.inflows), Cutoff(now))
  {
    if db == null {
      return;
    }
    var cutoffDate := Cutoff(now);
    if salesDeleteThrows {
      return;
    }
    FilterDistinct(db.sales, KeepSale(cutoffDate), LocalIdOf);
    db.sales := PurgeSales(db.sales, cutoffDate);
    if inflowsDeleteThrows {
      return;
    }
    FilterDistinct(db.inflows, KeepInflow(cutoffDate), LocalIdOf);
    db.inflows := PurgeInflows(db.inflows, cutoffDate);
  }

  /** `startPurgeDaemon(sequelizeLocalInstance)`: the first run happens at
      once (the daily timer is not modelled). */
  method StartPurgeDaemon(db: LocalDatabase?, now: int, salesDeleteThrows: bool, inflowsDeleteThrows: bool)
    requires db != null ==> db.Valid()
    modifies db
    ensures db != null ==> db.Valid()
    ensures db != null ==> db.sales == if salesDeleteThrows then old(db.sales) else PurgeSales(old(db.sales), Cutoff(now))
    ensures db != null ==>
      db.inflows == if salesDeleteThrows || inflowsDeleteThrows then old(db.inflows) else PurgeInflows(old(db.inflows), Cutoff(now))
  {
    if db == null {
      return;
    }
    PurgeOldSyncedData(db, now, salesDeleteThrows, inflowsDeleteThrows);
  }
}
