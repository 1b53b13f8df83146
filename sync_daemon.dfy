/** The background sync daemon (sync-daemon.js): one cycle selects up to 50
    unsynced inflows, oldest `local_id` first, sends each with its sales to
    the remote database and marks the inflow synced when the remote answers
    with an id. The remote write, the sales query and the local update are
    outside this file; what they do on each call is given by an
    `Environment`. */
module SyncDaemon {
  import opened JsValues
  import opened Seqs
  import opened LocalDb

  const BatchLimit := 50
  const RemoteIdColumn := "remote_id"
  const InflowIdColumn := "inflow_id"

  /** What `sendToMariaDB` did with one payload. */
  datatype RemoteReply = Resolved(result: Json) | Threw

  /** How the calls that this file does not define behave during one cycle;
      `k` is the position of the inflow in the batch. */
  datatype Environment = Environment(
    selectThrows: bool,            // InflowLocal.findAll rejects
    salesQueryThrows: nat -> bool, // SaleLocal.findAll rejects for the k-th inflow
    remote: nat -> RemoteReply,    // sendToMariaDB for the k-th inflow
    updateThrows: nat -> bool)     // localInflow.update rejects for the k-th inflow

  /** The body sent for one inflow. */
  datatype Payload = Payload(inflow: map<string, Json>, sales: seq<map<string, Json>>)

  // ---------------------------------------------------------------------
  // Selection
  // ---------------------------------------------------------------------

  /** `InflowLocal.findAll({where: {is_synced: false}, order: [["local_id",
      "ASC"]], limit: 50})`. */
  function PendingBatch(inflows: seq<Row>): (batch: seq<Row>)
    ensures |batch| <= BatchLimit
    ensures forall i :: 0 <= i < |batch| ==> batch[i] in inflows && !batch[i].isSynced
    ensures Ascending(batch, LocalIdOf)
  {
    FilterSortSliceMembers(inflows, IsUnsynced, LocalIdOf, BatchLimit);
    SliceAscending(SortByKey(Filter(inflows, IsUnsynced), LocalIdOf), LocalIdOf, BatchLimit);
    SliceTo(SortByKey(Filter(inflows, IsUnsynced), LocalIdOf), BatchLimit)
  }

  /** The batch holds the oldest unsynced inflows: an unsynced inflow left
      out of it only when the batch is full of inflows with no larger
      `local_id`. */
  lemma PendingBatchOldestFirst(inflows: seq<Row>, j: nat)
    requires j < |inflows| && !inflows[j].isSynced
    requires inflows[j] !in PendingBatch(inflows)
    ensures |PendingBatch(inflows)| == BatchLimit
    ensures forall i :: 0 <= i < BatchLimit ==> PendingBatch(inflows)[i].localId <= inflows[j].localId
  {
    var unsynced := Filter(inflows, IsUnsynced);
    var sorted := SortByKey(unsynced, LocalIdOf);
    FilterKeeps(inflows, IsUnsynced, j);
    assert inflows[j] in multiset(sorted);
    var q :| 0 <= q < |sorted| && sorted[q] == inflows[j];
  }

  /** Every inflow, synced or not, unless the batch is full. */
  lemma PendingBatchComplete(inflows: seq<Row>, j: nat)
    requires j < |inflows| && !inflows[j].isSynced
    requires |PendingBatch(inflows)| < BatchLimit
    ensures inflows[j] in PendingBatch(inflows)
  {
    if inflows[j] !in PendingBatch(inflows) {
      PendingBatchOldestFirst(inflows, j);
    }
  }

  /** The batch inherits the primary key of the table. */
  lemma PendingBatchDistinct(inflows: seq<Row>)
    requires DistinctKeys(inflows, LocalIdOf)
    ensures DistinctKeys(PendingBatch(inflows), LocalIdOf)
  {
    var unsynced := Filter(inflows, IsUnsynced);
    FilterDistinct(inflows, IsUnsynced, LocalIdOf);
    SortDistinct(unsynced, LocalIdOf);
  }

  // ---------------------------------------------------------------------
  // Payload
  // ---------------------------------------------------------------------

  /** `delete json.local_id; delete json.is_synced`. */
  function StripLocalColumns(json: map<string, Json>): (r: map<string, Json>)
    ensures LocalIdColumn !in r && IsSyncedColumn !in r
    ensures forall c :: c in r <==> c in json && c != LocalIdColumn && c != IsSyncedColumn
    ensures forall c :: c in r ==> r[c] == json[c]
  {
    json - {LocalIdColumn, IsSyncedColumn}
  }

  /** The stripped JSON of a row is exactly its other columns. */
  lemma StripToJson(row: Row)
    requires WellFormed(row)
    ensures StripLocalColumns(ToJson(row)) == row.columns
  {
    var r := StripLocalColumns(ToJson(row));
    assert r.Keys == row.columns.Keys;
  }

  /** `SaleLocal.findAll({where: {inflow_id: localId}})`. */
  function SalesOf(sales: seq<Row>, inflowId: int): seq<Row> {
    Filter(sales, (s: Row) => SqlValue(s, InflowIdColumn) == Some(Num(inflowId)))
  }

  function PayloadOf(inflow: Row, sales: seq<Row>): (p: Payload)
    ensures |p.sales| == |SalesOf(sales, inflow.localId)|
  {
    var mine := SalesOf(sales, inflow.localId);
    Payload(StripLocalColumns(ToJson(inflow)),
            seq(|mine|, i requires 0 <= i < |mine| => StripLocalColumns(ToJson(mine[i]))))
  }

  /** The payload of an inflow holds every column of the inflow and of each
      of its sales except `local_id` and `is_synced`. */
  lemma PayloadColumns(inflow: Row, sales: seq<Row>, i: nat)
    requires WellFormed(inflow)
    requires forall s :: s in sales ==> WellFormed(s)
    requires i < |SalesOf(sales, inflow.localId)|
    ensures PayloadOf(inflow, sales).inflow == inflow.columns
    ensures PayloadOf(inflow, sales).sales[i] == SalesOf(sales, inflow.localId)[i].columns
    ensures SqlValue(SalesOf(sales, inflow.localId)[i], InflowIdColumn) == Some(Num(inflow.localId))
  {
    StripToJson(inflow);
    StripToJson(SalesOf(sales, inflow.localId)[i]);
  }

  // ---------------------------------------------------------------------
  // Outcome of one inflow
  // ---------------------------------------------------------------------

  /** `mariaDBResult && mariaDBResult.remoteInflowId`. */
  predicate Accepts(reply: RemoteReply)
    ensures Accepts(reply) ==> reply.Resolved? && Truthy(reply.result)
    ensures reply.Resolved? && !Truthy(Property(reply.result, "remoteInflowId")) ==> !Accepts(reply)
  {
    reply.Resolved? && Truthy(reply.result) && Truthy(Property(reply.result, "remoteInflowId"))
  }

  function RemoteInflowId(reply: RemoteReply): Json
    requires Accepts(reply)
  {
    Property(reply.result, "remoteInflowId")
  }

  /** The k-th inflow of the batch ends up marked synced. */
  predicate Commits(env: Environment, k: nat) {
    Accepts(env.remote(k)) && !env.updateThrows(k)
  }

  /** `update({is_synced: true, remote_id: id})` on one row. */
  function Synced(row: Row, remoteId: Json): (r: Row)
    ensures r.localId == row.localId && r.isSynced
    ensures r.columns.Keys == row.columns.Keys + {RemoteIdColumn} && r.columns[RemoteIdColumn] == remoteId
    ensures forall c :: c in row.columns && c != RemoteIdColumn ==> r.columns[c] == row.columns[c]
  {
    row.(isSynced := true, columns := row.columns[RemoteIdColumn := remoteId])
  }

  /** The update on the table: the rows with that primary key. */
  function MarkSynced(rows: seq<Row>, localId: int, remoteId: Json): (r: seq<Row>)
    ensures |r| == |rows|
    ensures forall j :: 0 <= j < |r| ==> r[j] == if rows[j].localId == localId then Synced(rows[j], remoteId) else rows[j]
  {
    seq(|rows|, j requires 0 <= j < |rows| => if rows[j].localId == localId then Synced(rows[j], remoteId) else rows[j])
  }

  /** Marking rows synced keeps the primary key and the local columns. */
  lemma MarkSyncedValid(rows: seq<Row>, localId: int, remoteId: Json)
    requires DistinctKeys(rows, LocalIdOf) && forall i :: 0 <= i < |rows| ==> WellFormed(rows[i])
    ensures DistinctKeys(MarkSynced(rows, localId, remoteId), LocalIdOf)
    ensures forall i :: 0 <= i < |rows| ==> WellFormed(MarkSynced(rows, localId, remoteId)[i])
  {
    var r := MarkSynced(rows, localId, remoteId);
    assert forall i :: 0 <= i < |r| ==> r[i].localId == rows[i].localId;
  }

  /** The table after processInflowSync returned normally for the k-th
      inflow of the batch. */
  function StepAt(inflows: seq<Row>, inflow: Row, env: Environment, k: nat): seq<Row> {
    if Commits(env, k) then MarkSynced(inflows, inflow.localId, RemoteInflowId(env.remote(k))) else inflows
  }

  // ---------------------------------------------------------------------
  // One cycle
  // ---------------------------------------------------------------------

  /** How many inflows of a batch of `n` are processed from `k` on: the
      first sales query that throws ends the loop (it is outside the
      per-inflow try). */
  function ProcessedFrom(n: nat, env: Environment, k: nat): (r: nat)
    requires k <= n
    ensures k <= r <= n
    ensures forall i :: k <= i < r ==> !env.salesQueryThrows(i)
    ensures r < n ==> env.salesQueryThrows(r)
    decreases n - k
  {
    if k == n then n
    else if env.salesQueryThrows(k) then k
    else ProcessedFrom(n, env, k + 1)
  }

  function Processed(batch: seq<Row>, env: Environment): nat
  {
    ProcessedFrom(|batch|, env, 0)
  }

  /** Within the reached part of the batch, the loop stops exactly at the
      sales query that throws. */
  lemma ProcessedStopsAt(batch: seq<Row>, env: Environment, i: nat)
    requires i < |batch| && i <= Processed(batch, env)
    ensures env.salesQueryThrows(i) <==> i == Processed(batch, env)
  {
  }

  /** The table after the first `n` inflows of the batch were processed. */
  function AfterSteps(inflows: seq<Row>, batch: seq<Row>, env: Environment, n: nat): (r: seq<Row>)
    requires n <= |batch|
    ensures |r| == |inflows|
  {
    if n == 0 then inflows
    else StepAt(AfterSteps(inflows, batch, env, n - 1), batch[n - 1], env, n - 1)
  }

  /** The last of the first `n` inflows of the batch with key `localId`
      whose update went through. */
  function CommitIndex(batch: seq<Row>, env: Environment, n: nat, localId: int): (r: Option<nat>)
    requires n <= |batch|
    ensures r.Some? ==> r.value < n && batch[r.value].localId == localId && Commits(env, r.value)
    ensures r.None? ==> forall k :: 0 <= k < n && batch[k].localId == localId ==> !Commits(env, k)
  {
    if n == 0 then None
    else if batch[n - 1].localId == localId && Commits(env, n - 1) then Some(n - 1)
    else CommitIndex(batch, env, n - 1, localId)
  }

  /** Each row after `n` steps: marked synced with the id of the last
      accepted attempt on its key, or exactly as before. */
  lemma {:induction false} AfterStepsAt(inflows: seq<Row>, batch: seq<Row>, env: Environment, n: nat, j: nat)
    requires n <= |batch| && j < |inflows|
    ensures AfterSteps(inflows, batch, env, n)[j] ==
      match CommitIndex(batch, env, n, inflows[j].localId)
      case None => inflows[j]
      case Some(k) => Synced(inflows[j], RemoteInflowId(env.remote(k)))
  {
    if n > 0 {
      AfterStepsAt(inflows, batch, env, n - 1, j);
      var prev := AfterSteps(inflows, batch, env, n - 1);
      var row := inflows[j];
      if Commits(env, n - 1) && batch[n - 1].localId == row.localId {
        var id := RemoteInflowId(env.remote(n - 1));
        match CommitIndex(batch, env, n - 1, row.localId)
        case None =>
          assert prev[j] == row;
        case Some(k) =>
          var s := Synced(row, RemoteInflowId(env.remote(k)));
          assert prev[j] == s;
          assert Synced(s, id).columns == Synced(row, id).columns;
      }
    }
  }

  /** The inflow table after one cycle. */
  function CycleInflows(inflows: seq<Row>, env: Environment): seq<Row> {
    if env.selectThrows then inflows
    else
      var batch := PendingBatch(inflows);
      AfterSteps(inflows, batch, env, Processed(batch, env))
  }

  /** The payloads of the first `n` inflows of the batch, in batch order. */
  function SentPayloads(batch: seq<Row>, sales: seq<Row>, n: nat): (r: seq<Payload>)
    requires n <= |batch|
    ensures |r| == n
  {
    if n == 0 then [] else SentPayloads(batch, sales, n - 1) + [PayloadOf(batch[n - 1], sales)]
  }

  /** The payloads sent during one cycle, in batch order. */
  function CycleSent(inflows: seq<Row>, sales: seq<Row>, env: Environment): seq<Payload> {
    if env.selectThrows then []
    else
      var batch := PendingBatch(inflows);
      SentPayloads(batch, sales, Processed(batch, env))
  }

  /** An accepted inflow ends the cycle synced with the id the remote gave,
      whatever happened to the inflows before it in the batch. */
  lemma CycleMarksAccepted(inflows: seq<Row>, env: Environment, k: nat, j: nat)
    requires DistinctKeys(inflows, LocalIdOf)
    requires !env.selectThrows
    requires k < Processed(PendingBatch(inflows), env) && Commits(env, k)
    requires j < |inflows| && inflows[j].localId == PendingBatch(inflows)[k].localId
    ensures CycleInflows(inflows, env)[j] == Synced(inflows[j], RemoteInflowId(env.remote(k)))
  {
    var batch := PendingBatch(inflows);
    var n := Processed(batch, env);
    PendingBatchDistinct(inflows);
    AfterStepsAt(inflows, batch, env, n, j);
    var c := CommitIndex(batch, env, n, inflows[j].localId);
    assert c.Some? && c.value == k;
  }

  /** A row that no accepted attempt of this cycle names is left exactly as
      it was; in particular an inflow whose remote write was rejected or
      threw stays unsynced and is selected again by the next cycle. */
  lemma CycleKeepsOthers(inflows: seq<Row>, env: Environment, j: nat)
    requires j < |inflows|
    requires !env.selectThrows ==>
      forall k :: 0 <= k < Processed(PendingBatch(inflows), env) && PendingBatch(inflows)[k].localId == inflows[j].localId ==> !Commits(env, k)
    ensures CycleInflows(inflows, env)[j] == inflows[j]
  {
    if !env.selectThrows {
      var batch := PendingBatch(inflows);
      AfterStepsAt(inflows, batch, env, Processed(batch, env), j);
    }
  }

  /** An inflow that was already synced is never touched by a cycle. */
  lemma CycleKeepsSynced(inflows: seq<Row>, env: Environment, j: nat)
    requires DistinctKeys(inflows, LocalIdOf)
    requires j < |inflows| && inflows[j].isSynced
    ensures CycleInflows(inflows, env)[j] == inflows[j]
  {
    if !env.selectThrows {
      var batch := PendingBatch(inflows);
      forall k | 0 <= k < |batch|
        ensures batch[k].localId != inflows[j].localId
      {
        var q :| 0 <= q < |inflows| && inflows[q] == batch[k];
        if batch[k].localId == inflows[j].localId {
          assert false;
        }
      }
      CycleKeepsOthers(inflows, env, j);
    }
  }

  // ---------------------------------------------------------------------
  // The daemon
  // ---------------------------------------------------------------------

  /** `processInflowSync(localInflow)` for the k-th inflow of the batch:
      None when the sales query threw (the error leaves this function),
      otherwise the payload that was sent. */
  method ProcessInflowSync(db: LocalDatabase, inflow: Row, env: Environment, k: nat) returns (sent: Option<Payload>)
    requires db.Valid()
    modifies db`inflows
    ensures db.Valid()
    ensures sent == if env.salesQueryThrows(k) then None else Some(PayloadOf(inflow, db.sales))
    ensures db.inflows == if env.salesQueryThrows(k) then old(db.inflows) else StepAt(old(db.inflows), inflow, env, k)
  {
    if env.salesQueryThrows(k) {
      return None;
    }
    var localSales := SalesOf(db.sales, inflow.localId);
    var payload := PayloadOf(inflow, db.sales);
    sent := Some(payload);
    var reply := env.remote(k);
    if Accepts(reply) {
      if !env.updateThrows(k) {
        MarkSyncedValid(db.inflows, inflow.localId, RemoteInflowId(reply));
        db.inflows := MarkSynced(db.inflows, inflow.localId, RemoteInflowId(reply));
      }
    }
  }

  /** The `for` loop of syncLocalToRemote over the selected batch: the
      inflows are processed in batch order until a sales query throws. */
  method SyncBatch(db: LocalDatabase, pending: seq<Row>, env: Environment) returns (sent: seq<Payload>)
    requires db.Valid()
    modifies db`inflows
    ensures db.Valid()
    ensures db.inflows == AfterSteps(old(db.inflows), pending, env, Processed(pending, env))
    ensures sent == SentPayloads(pending, db.sales, Processed(pending, env))
  {
    sent := [];
    ghost var start := db.inflows;
    var sales := db.sales;
    var i := 0;
    while i < |pending|
      invariant 0 <= i <= |pending|
      invariant i <= Processed(pending, env)
      invariant db.sales == sales
      invariant db.inflows == AfterSteps(start, pending, env, i)
      invariant sent == SentPayloads(pending, sales, i)
      invariant db.Valid()
    {
      ProcessedStopsAt(pending, env, i);
      var payload := ProcessInflowSync(db, pending[i], env, i);
      if payload.None? {
        break;
      }
      sent := sent + [payload.value];
      i := i + 1;
    }
    assert i == Processed(pending, env);
  }

  class Daemon {
    /** Whether a local Sequelize instance was injected (truthy). */
    var hasLocal: bool
    /** Whether a remote connection was injected (truthy). */
    var hasRemote: bool
    var isSyncing: bool

    constructor ()
      ensures !hasLocal && !hasRemote && !isSyncing
    {
      hasLocal := false;
      hasRemote := false;
      isSyncing := false;
    }

    /** `setConnections(localSequelize, remoteDB)`. */
    method SetConnections(local: bool, remote: bool)
      modifies this
      ensures hasLocal == local && hasRemote == remote && isSyncing == old(isSyncing)
    {
      hasLocal := local;
      hasRemote := remote;
    }

    /** `syncLocalToRemote()`: one cycle. Returns the payloads sent. */
    method SyncLocalToRemote(db: LocalDatabase, env: Environment) returns (sent: seq<Payload>)
      requires db.Valid()
      modifies this, db
      ensures db.Valid()
      ensures hasLocal == old(hasLocal) && hasRemote == old(hasRemote)
      ensures db.sales == old(db.sales)
      ensures old(isSyncing) || !hasRemote ==>
        isSyncing == old(isSyncing) && db.inflows == old(db.inflows) && sent == []
      ensures !old(isSyncing) && hasRemote ==>
        !isSyncing && db.inflows == CycleInflows(old(db.inflows), env) && sent == CycleSent(old(db.inflows), db.sales, env)
    {
      if isSyncing || !hasRemote {
        return [];
      }
      isSyncing := true;
      sent := [];
      if env.selectThrows {
        isSyncing := false;
        return;
      }
      var pending := PendingBatch(db.inflows);
      if |pending| == 0 {
        isSyncing := false;
        return;
      }
      sent := SyncBatch(db, pending, env);
      isSyncing := false;
    }

    /** `startDaemon()`: nothing without a local database; otherwise the
        first cycle runs at once (the 30-second timer is not modelled). */
    method StartDaemon(db: LocalDatabase, env: Environment) returns (sent: seq<Payload>)
      requires db.Valid()
      modifies this, db
      ensures db.Valid()
      ensures hasLocal == old(hasLocal) && hasRemote == old(hasRemote)
      ensures db.sales == old(db.sales)
      ensures !hasLocal || old(isSyncing) || !hasRemote ==>
        isSyncing == old(isSyncing) && db.inflows == old(db.inflows) && sent == []
      ensures hasLocal && !old(isSyncing) && hasRemote ==>
        !isSyncing && db.inflows == CycleInflows(old(db.inflows), env) && sent == CycleSent(old(db.inflows), db.sales, env)
    {
      if !hasLocal {
        return [];
      }
      sent := SyncLocalToRemote(db, env);
    }
  }
}
