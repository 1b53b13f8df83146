# Caja data layer in Dafny

Caja is an offline-first point-of-sale application. Its data layer is modelled here in Dafny in five parts:

- **Sync daemon** (`sync-daemon.js`). A guarded cycle selects up to 50 unsynced cash-register sessions (Inflow rows), oldest `local_id` first. It sends each one, with its sales and without the local-only columns, to the remote database. It marks an inflow synced only when the remote answers with a `remoteInflowId`.
- **Purge daemon** (`purge-daemon.js`). It deletes synced sales, and synced closed inflows, that are more than two days old.
- **Business rules of the renderer** (`src/shared/utils.js`). They run over local JSON files and cover:
  - a per-location cashier lock;
  - the authorization workflow: request, pending query, approve and reject, and the PIN change, product change or profile deletion that an approval applies;
  - sale voiding;
  - the change log;
  - newest-first history queries;
  - permission and validation predicates;
  - payment-method labels;
  - per-location data isolation.
- **Server data store** (`server.js`). It covers the `app_data` JSONB table:
  - the must-be-an-array coercion of `getData`/`setData`;
  - `validateData`;
  - the last-write-wins upsert;
  - the insert-if-absent initialisation loop.
- **Session store** (`storage.js`). An in-memory key/value store that holds JSON text.

External systems are abstracted as follows:
- Databases and JSON files are values: sequences of rows, maps, or `Option` fields where a read can yield null.
- The remote writer `sendToMariaDB`, the throwing queries, the clock and the id generator are parameters. For the sync daemon they are bundled in an `Environment`, indexed by position in the batch.
- Timestamps are milliseconds as integers.

Module layout:

| file | module | models |
|---|---|---|
| js_values.dfy | JsValues | JavaScript values, truthiness, property lookup, the JSON round trip as a function (`Normalize`) |
| json_text.dfy | JsonText | `JSON.stringify` / `JSON.parse` on text, and their round trip |
| seqs.dfy | Seqs | `filter`, a stable sort by key, `slice(0, n)`, `find`, subsequences |
| storage.dfy | Storage | storage.js |
| local_db.dfy | LocalDb | the local Inflow and Sale tables |
| sync_daemon.dfy | SyncDaemon | sync-daemon.js |
| purge_daemon.dfy | PurgeDaemon | purge-daemon.js |
| app_data.dfy | AppData | the server.js data store |
| utils_records.dfy | PosRecords | the records kept in the renderer's JSON files |
| cashier_sessions.dfy | CashierSessions | the cashier lock |
| authorizations.dfy | Authorizations | pending query, status changes, and the changes an approval applies |
| history_queries.dfy | HistoryQueries | `getChangeHistory`, `getVoidedSales` |
| sale_voids.dfy | SaleVoids | voiding rules |
| access_rules.dfy | AccessRules | `canUser*`, `validateAuthorizationData`, `getPaymentMethodName` |
| local_scope.dfy | LocalScope | `ensureLocalId`, `readLocalData` |
| utils_files.dfy | UtilsFiles | the read-modify-write operations, as methods of `DataFiles` |

## Model

| member | source | states |
|---|---|---|
| SyncDaemon.PendingBatch | sync-daemon.js:40-48 | The batch has at most 50 rows. Every row is an unsynced row of the Inflow table. The batch is in ascending `local_id` order. |
| SyncDaemon.PendingBatchOldestFirst | sync-daemon.js:40-48 | An unsynced inflow missing from the batch means the batch is full. Every row in it then has a `local_id` no larger than the missing one. |
| SyncDaemon.PendingBatchComplete | sync-daemon.js:40-48 | When the batch has fewer than 50 rows, every unsynced inflow is in it. |
| SyncDaemon.PendingBatchDistinct | sync-daemon.js:40-48 | The batch inherits the primary key: no two rows share a `local_id`. |
| SyncDaemon.StripLocalColumns | sync-daemon.js:80-89 | Deleting `local_id` and `is_synced` removes exactly those two fields. Every other field keeps its value. |
| SyncDaemon.StripToJson | sync-daemon.js:80-89 | The stripped `toJSON()` of a row is exactly its other columns. |
| LocalDb.ToJson | sync-daemon.js:80-89 | `toJSON()` holds every column of the row, including `local_id` and `is_synced` with the row's values. |
| SyncDaemon.PayloadColumns | sync-daemon.js:72-99 | The payload's inflow equals the local record minus the two local columns. Each payload sale is a sale with this inflow's `inflow_id`, likewise stripped. |
| SyncDaemon.Synced | sync-daemon.js:103-106 | The update sets `is_synced` and `remote_id` and keeps the key and every other column. |
| SyncDaemon.MarkSynced | sync-daemon.js:103-106 | Only the row with the given `local_id` is updated; every other row is unchanged. |
| SyncDaemon.MarkSyncedValid | sync-daemon.js:103-106 | The update keeps the primary key distinct and keeps the local columns out of the column maps. |
| SyncDaemon.ProcessedFrom | sync-daemon.js:56-58 | The loop reaches the inflows up to the first sales query that throws. That query is outside the per-inflow try (lines 72-75), so its error ends the cycle. |
| SyncDaemon.CommitIndex | sync-daemon.js:101-106 | Finds the last accepted and committed attempt on a key among the first n inflows, or reports that there is none. |
| SyncDaemon.Accepts | sync-daemon.js:101 | Only a resolved, truthy reply can be accepted. A thrown remote write is never accepted, and neither is a reply without a truthy `remoteInflowId`. |
| SyncDaemon.AfterStepsAt | sync-daemon.js:56-58 | After n steps, each row is either exactly as before, or synced with the id of the last accepted attempt on its key. |
| SyncDaemon.CycleMarksAccepted | sync-daemon.js:101-106 | An inflow whose attempt `Commits` ends the cycle with `is_synced` true and `remote_id` equal to that id. `Commits` means the remote accepted with a truthy `remoteInflowId` and the local update did not throw. This holds whatever happened to earlier inflows of the batch. |
| SyncDaemon.CycleKeepsOthers | sync-daemon.js:114-122 | A row with no accepted attempt in this cycle is unchanged. This covers a rejected reply or a thrown remote write: the inflow stays unsynced and is selected again. |
| SyncDaemon.CycleKeepsSynced | sync-daemon.js:40-48 | A cycle never touches an inflow that was already synced. |
| SyncDaemon.ProcessInflowSync | sync-daemon.js:67-123 | Returns nothing when the sales query throws. Otherwise it returns the stripped payload, and the table changes only by `StepAt`: the inflow is marked synced when the remote accepted and the update went through. |
| SyncDaemon.SyncBatch | sync-daemon.js:56-58 | Processes the inflows in batch order until a sales query throws. The resulting table and payloads are given by the cycle functions. |
| SyncDaemon.Daemon.constructor | sync-daemon.js:2-4 | The daemon starts with no connections and `isSyncing` false. |
| SyncDaemon.Daemon.SetConnections | sync-daemon.js:11-15 | Records the two connections and leaves `isSyncing` alone. |
| SyncDaemon.Daemon.SyncLocalToRemote | sync-daemon.js:28-65 | While syncing, or with no remote, a cycle changes nothing and sends nothing. Otherwise `isSyncing` is false afterwards, including after an empty batch or a thrown select. The inflows become `CycleInflows`, sales are untouched and the sent payloads are `CycleSent`. |
| SyncDaemon.Daemon.StartDaemon | sync-daemon.js:18-26 | Without a local database nothing happens. Otherwise the first cycle runs as `SyncLocalToRemote`. |
| PurgeDaemon.Cutoff | purge-daemon.js:17 | The cutoff is now minus 172,800,000 ms. |
| PurgeDaemon.SaleExpired | purge-daemon.js:20-27 | Only a synced sale can expire. A sale whose `sale_date` is NULL never matches `sale_date < cutoff`. |
| PurgeDaemon.InflowExpired | purge-daemon.js:30-36 | Only a synced inflow with a non-null `end_time` can expire. An inflow whose `start_time` is NULL never matches. |
| PurgeDaemon.PurgeSales | purge-daemon.js:20-27 | The remaining sales are exactly those not both synced and dated before the cutoff. |
| PurgeDaemon.PurgeInflows | purge-daemon.js:30-36 | The remaining inflows are exactly those not synced, closed (non-null `end_time`) and started before the cutoff. |
| PurgeDaemon.SaleSurvives | purge-daemon.js:20-27 | An unsynced sale, or one dated exactly at the cutoff, is never deleted. |
| PurgeDaemon.InflowSurvives | purge-daemon.js:30-36 | An unsynced or still open inflow is never deleted. |
| PurgeDaemon.PurgeIdempotent | purge-daemon.js:20-36 | A second purge with the same cutoff deletes nothing. |
| PurgeDaemon.PurgeOldSyncedData | purge-daemon.js:7-37 | With no database nothing changes. Sales are purged first, then inflows. A throwing delete stops the job. The primary keys stay distinct. |
| PurgeDaemon.StartPurgeDaemon | purge-daemon.js:40-49 | Without a database nothing happens; otherwise the first purge runs at once. |
| AppData.Coerce | server.js:60-78 | For the five array files the result is the array given, or [] for anything else. Every other file's data passes unchanged. |
| AppData.CoerceIdempotent | server.js:90-109 | Coercing twice is coercing once. |
| AppData.ValidateData | server.js:129-151 | Null for an array file throws, from `Object.keys(null)`. Otherwise the data is valid exactly when three conditions hold: an array file holds an array or `{}`, `profiles.json` has a `locales` array, and `config.json` has a numeric `lastOrderNumber`. An array file gets the "debe ser un array" error. |
| AppData.ValidArrayFileCoercion | server.js:129-136 | Validated data for an array file is stored unchanged, or is the empty object that becomes []. |
| AppData.WriteThenRead | server.js:112-118 | Last write wins: after an upsert, getData of that file returns the coerced value, for every JSON-representable value. |
| AppData.ArrayFileReadsArray | server.js:60-78 | An existing array file always reads as an array. |
| AppData.WriteKeepsOthers | server.js:112-118 | An upsert changes only its own file. |
| AppData.DefaultsAreValid | server.js:364-421 | Every default document of /api/init-db passes `validateData`. |
| AppData.DefaultData | server.js:364-421 | The defaults name each file once. Every array file is among them, and each has the empty array as its default. |
| AppData.WithDefaults | server.js:423-430 | `ON CONFLICT (filename) DO NOTHING`: a file already in the table keeps its document. |
| AppData.WithDefaultsInserted | server.js:423-430 | Insert-if-absent in full: existing files keep their data, every default file exists afterwards, and no other file appears. A file missing from the table gets the document of the first default with its name. |
| AppData.WithDefaultsIdempotent | server.js:423-430 | Initialising twice is initialising once. |
| AppData.WithDefaultsKeeps | server.js:423-430 | A table that already has every default file is left unchanged. |
| AppData.WithDefaultsExtends | server.js:423-430 | Inserting the first k defaults and then the first j, for k <= j, gives the same table as inserting the first j. |
| AppData.InitRetryCompletes | server.js:423-437 | After an initialisation stopped part-way, a complete initialisation gives the same table as one that never failed. |
| AppData.InitInsertsDefaults | server.js:364-430 | Every default file missing from the table gets exactly its default document. |
| AppData.AppDataTable.GetData | server.js:47-85 | Returns null when the query fails (the catch at lines 81-84) or when no row exists. Otherwise it returns the coerced document, which for an array file is an array. |
| AppData.AppDataTable.SetData | server.js:88-126 | Succeeds exactly when the database accepts and the coerced value is not null or undefined (`data JSONB NOT NULL`, server.js:342). It then stores that value under the file name. |
| AppData.AppDataTable.InitDb | server.js:423-437 | The inserts run in order. A failing insert stops the loop, with the route answering 500: the result is false and the inserts before it stay. The table is `WithDefaults` of the defaults inserted so far, and of all of them when the result is true. |
| AppData.AppDataTable.InsertIfAbsent | server.js:424-431 | Runs the inserts in order until the one that throws. The table is `WithDefaults` of the entries before it, and of all entries when none throws; the result is true exactly then. |
| Storage.SessionStore.constructor | storage.js:1 | The store starts empty. |
| Storage.SessionStore.SetStoredValue | storage.js:7-9 | Stores the JSON text of the value under the key, replacing the old text; other keys are unchanged. The key `__proto__` stores nothing, since that assignment runs the prototype setter, which ignores a string. |
| Storage.SessionStore.GetStoredValue | storage.js:2-5 | A never-set key gives undefined, except a key inherited from `Object.prototype`: its value is not undefined, and parsing its text throws a SyntaxError. A set key returns the value set as it comes back through JSON; a representable value comes back equal. |
| Storage.SetThenGet | storage.js:2-9 | After set, get returns the value set, for every JSON-representable value and every key except `__proto__`. Reading `__proto__` throws when it was never stored. |
| Storage.SetKeepsOthers | storage.js:8 | Setting one key leaves every other key's value unchanged. |
| JsonText.Stringify | storage.js:8 | `JSON.stringify` gives no text exactly for undefined. |
| JsonText.Parse | storage.js:4 | `JSON.parse` of the empty text throws. Its round trip with `Stringify` is `StringifyParse`. |
| JsonText.StringifyParse | storage.js:4-8 | `JSON.parse(JSON.stringify(v))` yields v with its undefined members dropped. |
| JsValues.ReviveRepresentable | storage.js:4-8 | A value without undefined survives the JSON round trip unchanged. |
| CashierSessions.Locked | src/shared/utils.js:77-92 | A granted lock makes the location's entry name the cashier, with the time. It creates the entry if it was missing and changes no other entry. |
| CashierSessions.LockGranted | src/shared/utils.js:82-86 | A location with no active cashier is granted to anyone. When a cashier is active, the lock is granted only to that cashier. |
| CashierSessions.LockReentrant | src/shared/utils.js:82-88 | The cashier holding the lock may log in again. |
| CashierSessions.LockExcludes | src/shared/utils.js:84-86 | While a named cashier holds the lock, every other cashier is refused. |
| CashierSessions.LockIsPerLocation | src/shared/utils.js:77 | Locking `local_<id>` does not change who may lock another location. |
| CashierSessions.Cleared | src/shared/utils.js:102-110 | Only an existing entry of the location loses its cashier. No entry is created and every other entry is unchanged. |
| CashierSessions.ClearReleases | src/shared/utils.js:104-107 | After a clear, any cashier may take the location. |
| UtilsFiles.DataFiles.CheckAndSetCashierSession | src/shared/utils.js:72-97 | A missing file makes the call fail. A different active cashier is refused with nothing written. Otherwise it returns true and the file is `Locked`. |
| UtilsFiles.DataFiles.ClearCashierSession | src/shared/utils.js:99-115 | Only a missing file makes the call fail; otherwise the file becomes `Cleared`. |
| UtilsFiles.DataFiles.CreateAuthorization | src/shared/utils.js:121-132 | Appends exactly the request, at the end of the list; a missing file counts as []. |
| Authorizations.FindAuth | src/shared/utils.js:154 | `find` gives the first request with the id, or none when no request has it. |
| Authorizations.PendingFilterThrows | src/shared/utils.js:139-144 | The filter can throw only when a location is given (`a.data.localId` is read only then). It does not throw when every pending request has `data`. |
| Authorizations.PendingAuthorizations | src/shared/utils.js:134-149 | Returns the pending requests, and with a location only those whose `data.localId` matches. A pending request without `data` makes the location filter throw, and the result is then []. |
| Authorizations.PendingInOrder | src/shared/utils.js:139-144 | The pending requests come back in their original order. |
| Authorizations.PendingForLocationAmongAll | src/shared/utils.js:139-144 | The requests of one location are among those returned without a location. |
| Authorizations.MarkApproved | src/shared/utils.js:158-159 | Status becomes `approved`, with the time and, when given, the approver (line 581). Type, data and requester are kept. |
| Authorizations.MarkRejected | src/shared/utils.js:191-192 | Status becomes `rejected`, with the time and, when given, who rejected (line 650). Type, data and requester are kept. |
| Authorizations.Updated | src/shared/utils.js:175 | The written list differs from the one read only at the found request. |
| Authorizations.DecidedLeavesPending | src/shared/utils.js:139-144 | After a decision, the decided request leaves the pending list and every other pending request stays in it. |
| Authorizations.TargetOf | src/shared/utils.js:164-167 | The location lookup throws on a missing file, a missing `locales`, a request without `data` (once there is a location to compare) or a missing role list. It otherwise picks the first location with the requested id. |
| Authorizations.PinChange | src/shared/utils.js:162-172 | Throws exactly when the location lookup throws. Writes profiles exactly when the location exists and the role list holds a profile with the requested id. The enhanced version (lines 585-597) also stamps the update time. |
| Authorizations.PinChangeOnlyTarget | src/shared/utils.js:585-597 | A PIN change sets the new PIN on the first profile with the requested id in the requested role. Every other profile of that list, and every other role list of every location, is unchanged. |
| Authorizations.ProfileDeletion | src/shared/utils.js:608-618 | Throws exactly when the location lookup throws. Writes profiles exactly when the location exists, even when no profile has the id. |
| Authorizations.DeletionRemovesExactly | src/shared/utils.js:608-618 | `delete_profile` removes exactly the profiles with the requested id from that role list and keeps the rest in order. Every other role list is unchanged. |
| Authorizations.Assign | src/shared/utils.js:603 | `Object.assign`: the changes win, every other field is kept, and no changes assigns nothing. |
| Authorizations.ProductUpdate | src/shared/utils.js:598-607 | Throws exactly when the product list is not empty and the request has no data. A written list keeps its length. |
| Authorizations.ProductUpdateApplies | src/shared/utils.js:598-607 | The change is applied exactly when the request has data and the list holds a product with the requested id. |
| Authorizations.ProductUpdateOnlyTarget | src/shared/utils.js:598-607 | A product change rewrites only the first product with the requested id. That product carries every requested change and the update time, and keeps its other fields. |
| Authorizations.ApprovalEffect | src/shared/utils.js:585-619 | Only `change_pin`, and in the enhanced version `product_change` and `delete_profile`, write another file. Every other type writes nothing else. |
| UtilsFiles.DataFiles.ApproveAuthorization | src/shared/utils.js:151-182 | An unknown id fails with nothing written, and so does a throwing PIN lookup. Otherwise the request becomes approved and the profiles are rewritten only when a profile was found. |
| UtilsFiles.DataFiles.RejectAuthorization | src/shared/utils.js:184-201 | An unknown id fails with nothing written. Otherwise the request becomes rejected and nothing else changes. |
| UtilsFiles.DataFiles.ApproveAuthorizationEnhanced | src/shared/utils.js:572-639 | As the plain approval, and it records the approver. It applies the type's change. It logs `authorization_approved` exactly when a change was applied. A failure writes nothing. |
| UtilsFiles.DataFiles.RejectAuthorizationEnhanced | src/shared/utils.js:641-668 | As the plain rejection, and it records who rejected. Every rejection is logged. |
| UtilsFiles.DataFiles.LogChange | src/shared/utils.js:531-549 | Appends one entry, with the fresh id, the time and the given type and fields. |
| SaleVoids.FindOrder | src/shared/utils.js:677 | `find` gives the first order with the id, or none. |
| SaleVoids.MarkVoided | src/shared/utils.js:689-692 | The order becomes voided, with time, user and reason. Id, location, number and total are kept. |
| SaleVoids.AfterVoid | src/shared/utils.js:689-694 | Only the found order changes in the written list. |
| SaleVoids.SecondVoidFails | src/shared/utils.js:684-687 | A sale cannot be voided twice. |
| SaleVoids.VoidedSaleIsListed | src/shared/utils.js:713-730 | A voided sale is listed by its location's voided-sales query, unless the list is already full of sales voided no earlier. |
| UtilsFiles.DataFiles.VoidSale | src/shared/utils.js:674-711 | A missing or already voided order fails with nothing written. Otherwise the order is voided in place and a `sale_void` entry is logged. |
| HistoryQueries.ChangeHistory | src/shared/utils.js:551-566 | Returns log entries of the requested type, or all entries when no type is given. Each matching entry appears at most as often as in the log. They come newest first, and there are at most `limit` of them (50 by default). |
| HistoryQueries.HistoryKeepsNewest | src/shared/utils.js:559-561 | A matching entry left out means the result is full and everything in it is at least as recent. |
| HistoryQueries.HistoryTiesInLogOrder | src/shared/utils.js:559-561 | The sort is stable. The entries returned for one timestamp are the first matching entries with that timestamp, in log order. |
| HistoryQueries.VoidedSales | src/shared/utils.js:713-730 | Returns voided orders of the location, or of all locations when none is given. Each appears at most as often as in orders.json, and there are no more of them than orders. They come most recently voided first, and there are at most `limit` of them (20 by default). |
| HistoryQueries.VoidedKeepsLatest | src/shared/utils.js:723-725 | A matching voided order left out means the result is full and everything in it was voided no earlier. |
| HistoryQueries.VoidedTiesInFileOrder | src/shared/utils.js:723-725 | The sort is stable. The orders returned for one void time are the first matching orders with that time, in file order. |
| AccessRules.ApproversCanVoid | src/shared/utils.js:736-742 | Every role that may approve may also void. A cashier or an `administrativo` may void but not approve. |
| AccessRules.CanUserVoidSale | src/shared/utils.js:736-738 | Exactly the approving roles, `cajero` and `administrativo` may void a sale. |
| AccessRules.CanUserApproveAuth | src/shared/utils.js:740-742 | Neither a cashier nor an `administrativo` may approve. |
| AccessRules.ValidateAuthorizationData | src/shared/utils.js:744-758 | A missing type, requester or data is rejected. With those present, a `change_pin`, `product_change` or `delete_profile` request passes exactly when its own fields are present. Any other type passes. |
| AccessRules.CompleteRequestsPass | src/shared/utils.js:744-758 | A request with every field present passes, whatever its type. |
| AccessRules.ValidatedRoleIsNamed | src/shared/utils.js:749-755 | A validated PIN change or profile deletion names its role. The approval therefore looks up that role, never the key "undefined". |
| AccessRules.PaymentMethodNameAsWritten | src/shared/utils.js:362-372 | An unknown method is shown as it is. |
| AccessRules.DebitLabelAsWrittenIsGarbled | src/shared/utils.js:366-367 | The labels as written show double-encoded text for debit and credit. |
| AccessRules.PaymentMethodName | src/shared/utils.js:362-372 | A known method gets its (non-empty) label; any other method is shown as it is. |
| AccessRules.PaymentNamesAreClean | src/shared/utils.js:362-372 | No intended label is double-encoded. Debit and credit read "Débito" and "Crédito". |
| AccessRules.AsWrittenDiffersOnlyInAccents | src/shared/utils.js:362-372 | The two tables agree on every method other than `debito` and `credito`. |
| LocalScope.SetMember | src/shared/utils.js:381 | Setting a property gives it the value and leaves every other property as it was. |
| LocalScope.EnsureLocalId | src/shared/utils.js:379-384 | With a location, an object gets `localId`, all else equal. Null or undefined data throws. Without a location the data is returned as it is. |
| LocalScope.ReadLocalData | src/shared/utils.js:387-397 | Falsy data, no location, `profiles.json` or a non-array come back as read. An array keeps exactly the elements of the location, in file order. A null element makes the filter throw. |
| LocalScope.StampedRecordIsVisible | src/shared/utils.js:379-397 | A record stamped for a location is seen by that location's reads of its file. |
| LocalScope.ReadLocalDataIdempotent | src/shared/utils.js:387-397 | Reading a location's view again changes nothing. |

## Left out

- Timers: the `setInterval` scheduling of both daemons is not modelled. Each start runs one cycle, and cycles run one at a time, with `isSyncing` as plain state rather than a guard between concurrent promises.
- Logging: console output is not modelled.
- SQL and Sequelize: their internals are not modelled. `InflowLocal`, `SaleLocal`, `sendToMariaDB`, `findAll` and `update` are abstract tables or the `Environment` oracle. Only the thrown errors and the replies they can give are kept.
- Time columns: `sale_date` and `start_time` are compared as millisecond numbers, not as SQL dates.
- Row identity: `MarkSynced` updates rows by primary key rather than through the Sequelize instance object.
- server.js parameter encoding: how node-postgres encodes parameters (an array becomes a PostgreSQL array literal, a string is sent raw) is not modelled. `SetData` stores the coerced JSON value, and `dbAccepts` stands for every other database failure.
- JSONB storage: JSONB's key reordering and duplicate-key removal are not modelled.
- The Express routes, Socket.IO, the Electron main process and the IPC bridge are not part of this model.
- `readData`/`writeData` are values. A failed read is the None of a file field, and a failed `writeData` is not modelled: its result is ignored by every caller.
- Record shapes: files hold well-typed records, so an element of the wrong type inside a file is not modelled. A missing or null field is modelled as None. The fields that no rule reads (names, prices and so on) are left out of the records, and every operation keeps them unchanged.
- Numbers are integers, and ISO timestamps are their millisecond values.
- PosRecords.Text: a template insertion of a null field gives "null" in JavaScript; the model writes "undefined" for both null and undefined.
- HistoryQueries.VoidedSales: an order marked voided without `voidedAt` makes the JavaScript comparator return NaN, which leaves the sort order implementation-defined. The model places such an order as time 0. The same applies to change-log entries without a timestamp.
- UtilsFiles.DataFiles.LogChange: it takes the entry's type and its remaining fields separately. A `changeData` carrying its own `id` or `timestamp` would override the generated ones; no caller in the file passes them.
- UtilsFiles.DataFiles.VoidSale: the log entry's `description` is not modelled, since it is built with `formatCurrency`, which depends on `Intl`. The other logged fields are modelled.
- AccessRules.ValidateAuthorizationData: returns the truthiness of what `validateAuthorizationData` returns. The source returns the last truthy field rather than `true`.
- AccessRules.PaymentMethodName: keys inherited from `Object.prototype`, such as `constructor`, are not modelled. The source would return a function for them.
- LocalScope.EnsureLocalId: an array given to `ensureLocalId` keeps the new property in memory, but JSON drops it, so the model returns the array unchanged. The in-place update of the caller's object is modelled as returning the new value.
- HistoryQueries.ChangeHistory: an explicit `null` limit makes `slice(0, null)` return [] in JavaScript. The model's absent limit stands for undefined and gives the default of 50.
- HistoryQueries.VoidedSales: an explicit `null` limit gives [] in JavaScript. The model's absent limit stands for undefined and gives the default of 20.
- JsValues.LookupMember: an object may list one member name twice. Member lookup takes the first, while `JSON.parse` keeps the last. `JSON.stringify` never writes such text, so only hand-built values differ.
- SyncDaemon.SalesOf: the sales of an inflow are taken in table order. The source's `findAll` has no ORDER BY, so the database may return them in any order.
- Remaining utils.js functions: the UI, printing, Excel and formatting functions, `getCurrentUser`, and the disabled server functions are not part of this model.

## Findings

| source | as written | input that shows it | evidently intended | confidence | as-written member | corrected member |
|---|---|---|---|---|---|---|
| src/shared/utils.js:366-367 | The labels are `'DÃ©bito'` and `'CrÃ©dito'`: UTF-8 "é" stored as two Latin-1 characters. The same double encoding runs through the first part of the file. | `getPaymentMethodName('debito')` shows "DÃ©bito" | "Débito" and "Crédito" | not executed | AccessRules.PaymentMethodNameAsWritten (AccessRules.DebitLabelAsWrittenIsGarbled) | AccessRules.PaymentMethodName (AccessRules.PaymentNamesAreClean) |
