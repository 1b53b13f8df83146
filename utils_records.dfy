/** The records that the renderer's business rules (src/shared/utils.js)
    keep in their local JSON files: active_sessions.json,
    authorizations.json, profiles.json, products.json, orders.json and
    change_history.json. Each record is typed by the fields those rules read
    or write; a field that may be missing is an Option (None is undefined or
    null). Timestamps, ISO strings in the files, are milliseconds here. */
module PosRecords {
  import opened JsValues

  /** One location's entry in active_sessions.json. */
  datatype SessionEntry = SessionEntry(activeCashier: Option<string>, lastUpdated: Option<int>)

  /** active_sessions.json: entries keyed by `local_<localId>`. */
  type Sessions = map<string, SessionEntry>

  /** `local_${localId}`. */
  function LocalKey(localId: string): (key: string)
    ensures |key| == |localId| + 6 && key[6..] == localId
  {
    "local_" + localId
  }

  /** Different locations never share a session entry. */
  lemma LocalKeyInjective(a: string, b: string)
    requires a != b
    ensures LocalKey(a) != LocalKey(b)
  {
  }

  /** The `data` object of an authorization request. */
  datatype AuthData = AuthData(
    localId: Option<string>,
    role: Option<string>,
    profileId: Option<string>,
    newPin: Option<string>,
    productId: Option<string>,
    changes: Option<map<string, Json>>)

  /** One element of authorizations.json; `kind` is the `type` field. */
  datatype Authorization = Authorization(
    id: Option<string>,
    kind: Option<string>,
    status: Option<string>,
    requestedBy: Option<string>,
    data: Option<AuthData>,
    approvedAt: Option<int>,
    approvedBy: Option<string>,
    rejectedAt: Option<int>,
    rejectedBy: Option<string>)

  const Pending := "pending"
  const Approved := "approved"
  const Rejected := "rejected"
  const ChangePin := "change_pin"
  const ProductChange := "product_change"
  const DeleteProfile := "delete_profile"

  /** A user profile of one location and role. */
  datatype Profile = Profile(id: Option<string>, pin: Option<string>, updatedAt: Option<int>)

  /** One element of `profiles.locales`; `perfiles` maps a role to its
      profiles. */
  datatype Locale = Locale(id: Option<string>, perfiles: Option<map<string, seq<Profile>>>)

  /** profiles.json. */
  datatype ProfilesDoc = ProfilesDoc(locales: Option<seq<Locale>>)

  /** One element of products.json, as the object it is. */
  type Product = map<string, Json>

  /** One element of orders.json. */
  datatype Order = Order(
    id: Option<string>,
    status: Option<string>,
    localId: Option<string>,
    orderNumber: Json,
    total: Json,
    voidedAt: Option<int>,
    voidedBy: Option<string>,
    voidReason: Option<string>)

  const Voided := "voided"

  /** One element of change_history.json: the generated id, the time it was
      logged, its `type` (`kind`) and the rest of the logged object. */
  datatype ChangeEntry = ChangeEntry(id: string, timestamp: int, kind: Option<string>, details: map<string, Json>)

  /** An optional string as the JavaScript value it is. */
  function JsOf(s: Option<string>): (v: Json)
    ensures v == Undefined <==> s.None?
  {
    if s.Some? then Str(s.value) else Undefined
  }

  /** A property key or template insertion of an optional string: undefined
      becomes "undefined". */
  function Text(s: Option<string>): string {
    if s.Some? then s.value else "undefined"
  }

  /** `obj.key` on a plain object held as a map. */
  function Field(obj: map<string, Json>, key: string): Json {
    if key in obj then obj[key] else Undefined
  }
}
