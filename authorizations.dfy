/** The authorization workflow of src/shared/utils.js: requests waiting in
    authorizations.json, the pending query, and the change an approval
    applies to profiles.json or products.json. The read-modify-write
    operations themselves are methods of `UtilsFiles.DataFiles`. */
module Authorizations {
  import opened JsValues
  import opened Seqs
  import opened PosRecords

  /** The result of applying an approved request: the code threw (nothing
      is written), found nothing to change, or produced the new file. */
  datatype Applied<T> = Threw | Unchanged | Changed(doc: T)

  /** `a => a.id === authId`. */
  function HasId(authId: string): Authorization -> bool {
    (a: Authorization) => a.id == Some(authId)
  }

  /** `data.find(a => a.id === authId)`, as an index. */
  function FindAuth(auths: seq<Authorization>, authId: string): (r: Option<nat>)
    ensures r.Some? ==> r.value < |auths| && auths[r.value].id == Some(authId)
    ensures r.Some? ==> forall j :: 0 <= j < r.value ==> auths[j].id != Some(authId)
    ensures r.None? ==> forall j :: 0 <= j < |auths| ==> auths[j].id != Some(authId)
  {
    FindFirst(auths, HasId(authId))
  }

  // ---------------------------------------------------------------------
  // Pending requests
  // ---------------------------------------------------------------------

  predicate IsPending(a: Authorization) {
    a.status == Some(Pending)
  }

  /** The location filter's `a.data.localId` throws on a pending request
      without `data`. */
  predicate PendingFilterThrows(auths: seq<Authorization>, localId: Option<string>)
    ensures PendingFilterThrows(auths, localId) ==> Present(localId)
    ensures Present(localId) && (forall i :: 0 <= i < |auths| && IsPending(auths[i]) ==> auths[i].data.Some?) ==>
      !PendingFilterThrows(auths, localId)
  {
    Present(localId) && exists i :: 0 <= i < |auths| && IsPending(auths[i]) && auths[i].data.None?
  }

  /** A request the query returns: pending and, when a location is given,
      for that location. */
  predicate Wanted(a: Authorization, localId: Option<string>) {
    IsPending(a) && (!Present(localId) || (a.data.Some? && a.data.value.localId == localId))
  }

  function WantedFor(localId: Option<string>): Authorization -> bool {
    a => Wanted(a, localId)
  }

  /** `getPendingAuthorizations(localId)` over the list read from
      authorizations.json; a thrown error yields []. */
  function PendingAuthorizations(auths: seq<Authorization>, localId: Option<string>): (r: seq<Authorization>)
    ensures forall i :: 0 <= i < |r| ==> r[i] in auths && Wanted(r[i], localId)
    ensures !PendingFilterThrows(auths, localId) ==>
      forall i :: 0 <= i < |auths| && Wanted(auths[i], localId) ==> auths[i] in r
    ensures PendingFilterThrows(auths, localId) ==> r == []
  {
    if PendingFilterThrows(auths, localId) then []
    else
      FilterKeepsAll(auths, WantedFor(localId));
      Filter(auths, WantedFor(localId))
  }

  /** The pending requests come back in the order they were created. */
  lemma PendingInOrder(auths: seq<Authorization>, localId: Option<string>)
    ensures Subsequence(PendingAuthorizations(auths, localId), auths)
  {
    if !PendingFilterThrows(auths, localId) {
      FilterSubsequence(auths, WantedFor(localId));
    }
  }

  /** Without a location, the query never fails and returns every pending
      request; the requests of one location are among them. */
  lemma PendingForLocationAmongAll(auths: seq<Authorization>, localId: Option<string>)
    ensures forall i :: 0 <= i < |PendingAuthorizations(auths, localId)| ==>
      PendingAuthorizations(auths, localId)[i] in PendingAuthorizations(auths, None)
  {
  }

  // ---------------------------------------------------------------------
  // Status changes
  // ---------------------------------------------------------------------

  /** `auth.status = 'approved'; auth.approvedAt = now` and, in the enhanced
      version, `auth.approvedBy = approvedBy`. */
  function MarkApproved(a: Authorization, now: int, approvedBy: Option<string>): (r: Authorization)
    ensures r.status == Some(Approved) && r.approvedAt == Some(now)
    ensures r.approvedBy == (if approvedBy.Some? then approvedBy else a.approvedBy)
    ensures r.id == a.id && r.kind == a.kind && r.data == a.data && r.requestedBy == a.requestedBy
  {
    var b := a.(status := Some(Approved), approvedAt := Some(now));
    if approvedBy.Some? then b.(approvedBy := approvedBy) else b
  }

  /** `auth.status = 'rejected'; auth.rejectedAt = now` and, in the enhanced
      version, `auth.rejectedBy = rejectedBy`. */
  function MarkRejected(a: Authorization, now: int, rejectedBy: Option<string>): (r: Authorization)
    ensures r.status == Some(Rejected) && r.rejectedAt == Some(now)
    ensures r.rejectedBy == (if rejectedBy.Some? then rejectedBy else a.rejectedBy)
    ensures r.id == a.id && r.kind == a.kind && r.data == a.data && r.requestedBy == a.requestedBy
  {
    var b := a.(status := Some(Rejected), rejectedAt := Some(now));
    if rejectedBy.Some? then b.(rejectedBy := rejectedBy) else b
  }

  /** The list written back: the found request updated in place. */
  function Updated(auths: seq<Authorization>, i: nat, a: Authorization): (r: seq<Authorization>)
    requires i < |auths|
    ensures |r| == |auths| && r[i] == a
    ensures forall j :: 0 <= j < |auths| && j != i ==> r[j] == auths[j]
  {
    auths[i := a]
  }

  /** An approved or rejected request is no longer pending, and every other
      request keeps its place in the pending list. */
  lemma DecidedLeavesPending(auths: seq<Authorization>, i: nat, a: Authorization, localId: Option<string>)
    requires i < |auths| && !IsPending(a)
    requires !PendingFilterThrows(auths, localId)
    ensures !PendingFilterThrows(Updated(auths, i, a), localId)
    ensures forall j :: 0 <= j < |auths| && j != i && Wanted(auths[j], localId) ==>
      auths[j] in PendingAuthorizations(Updated(auths, i, a), localId)
    ensures forall k :: 0 <= k < |PendingAuthorizations(Updated(auths, i, a), localId)| ==>
      PendingAuthorizations(Updated(auths, i, a), localId)[k] in auths
  {
    var u := Updated(auths, i, a);
    if PendingFilterThrows(u, localId) {
      assert false;
    }
    forall k | 0 <= k < |PendingAuthorizations(u, localId)|
      ensures PendingAuthorizations(u, localId)[k] in auths
    {
      var x := PendingAuthorizations(u, localId)[k];
      var j :| 0 <= j < |u| && u[j] == x;
      assert j != i;
      assert u[j] == auths[j];
    }
  }

  // ---------------------------------------------------------------------
  // Changes applied on approval
  // ---------------------------------------------------------------------

  /** `l => l.id === auth.data.localId`. */
  function LocaleIs(localId: Option<string>): Locale -> bool {
    (l: Locale) => l.id == localId
  }

  /** `p => p.id === auth.data.profileId`. */
  function ProfileIs(profileId: Option<string>): Profile -> bool {
    (p: Profile) => p.id == profileId
  }

  /** `p => p.id !== auth.data.profileId`. */
  function ProfileIsNot(profileId: Option<string>): Profile -> bool {
    (p: Profile) => p.id != profileId
  }

  /** The profile list of `role` in the `i`th location, if there is one. */
  function RoleList(doc: ProfilesDoc, i: nat, role: string): Option<seq<Profile>> {
    if doc.locales.Some? && i < |doc.locales.value| && doc.locales.value[i].perfiles.Some?
       && role in doc.locales.value[i].perfiles.value
    then Some(doc.locales.value[i].perfiles.value[role])
    else None
  }

  /** The document with the `role` list of location `i` replaced. */
  function WithRoleList(doc: ProfilesDoc, i: nat, role: string, list: seq<Profile>): (r: ProfilesDoc)
    requires RoleList(doc, i, role).Some?
    ensures RoleList(r, i, role) == Some(list)
    ensures forall j, other :: j != i || other != role ==> RoleList(r, j, other) == RoleList(doc, j, other)
    ensures |r.locales.value| == |doc.locales.value|
    ensures forall j :: 0 <= j < |doc.locales.value| ==> r.locales.value[j].id == doc.locales.value[j].id
  {
    var locales := doc.locales.value;
    var local := locales[i];
    ProfilesDoc(Some(locales[i := local.(perfiles := Some(local.perfiles.value[role := list]))]))
  }

  /** Where `profiles.locales.find(...)` and `perfiles[role]` lead: the
      location index, or Threw/Unchanged when the lookup throws or finds no
      location. */
  datatype Target = TargetThrew | NoLocation | Location(index: nat, role: string)

  /** The location lookup shared by change_pin and delete_profile: a missing
      profiles.json or `locales` throws, the `find` callback throws on a
      request without `data` once there is a location to test, and
      `local.perfiles[role]` must be a list (an undefined role reads the key
      "undefined"). */
  function TargetOf(profiles: Option<ProfilesDoc>, data: Option<AuthData>): (t: Target)
    ensures t.Location? ==> profiles.Some? && data.Some? && RoleList(profiles.value, t.index, t.role).Some?
    ensures t.Location? ==> t.role == Text(data.value.role)
    ensures t.Location? ==> profiles.value.locales.value[t.index].id == data.value.localId
    ensures t.Location? ==> forall j :: 0 <= j < t.index ==> profiles.value.locales.value[j].id != data.value.localId
    ensures t == NoLocation ==> profiles.Some? && profiles.value.locales.Some?
    ensures t == NoLocation && data.Some? ==>
      forall j :: 0 <= j < |profiles.value.locales.value| ==> profiles.value.locales.value[j].id != data.value.localId
  {
    if profiles.None? || profiles.value.locales.None? then TargetThrew
    else
      var locales := profiles.value.locales.value;
      if |locales| == 0 then NoLocation
      else if data.None? then TargetThrew
      else
        var found := FindFirst(locales, LocaleIs(data.value.localId));
        if found.None? then NoLocation
        else
          var local := locales[found.value];
          var role := Text(data.value.role);
          if local.perfiles.None? || role !in local.perfiles.value then TargetThrew
          else Location(found.value, role)
  }

  /** The PIN change of an approved change_pin request: the first profile of
      the role whose id matches gets the new PIN and, when `stamp` is given
      (the enhanced version), the update time. */
  function PinChange(profiles: Option<ProfilesDoc>, data: Option<AuthData>, stamp: Option<int>): (r: Applied<ProfilesDoc>)
    ensures r.Threw? <==> TargetOf(profiles, data) == TargetThrew
    ensures r.Changed? <==>
      var t := TargetOf(profiles, data);
      t.Location? && FindFirst(RoleList(profiles.value, t.index, t.role).value, ProfileIs(data.value.profileId)).Some?
  {
    var t := TargetOf(profiles, data);
    if t == TargetThrew then Threw
    else if t == NoLocation then Unchanged
    else
      var list := RoleList(profiles.value, t.index, t.role).value;
      var found := FindFirst(list, ProfileIs(data.value.profileId));
      if found.None? then Unchanged
      else
        var p := list[found.value];
        var p' := p.(pin := data.value.newPin, updatedAt := if stamp.Some? then stamp else p.updatedAt);
        Changed(WithRoleList(profiles.value, t.index, t.role, list[found.value := p']))
  }

  /** A PIN change touches one profile only: the first one with the
      requested id in the requested role of the first location with the
      requested id. Every other role list, and every other profile of that
      list, is as it was. */
  lemma PinChangeOnlyTarget(profiles: Option<ProfilesDoc>, data: Option<AuthData>, stamp: Option<int>)
    requires PinChange(profiles, data, stamp).Changed?
    ensures TargetOf(profiles, data).Location?
    ensures
      var t := TargetOf(profiles, data);
      var doc := PinChange(profiles, data, stamp).doc;
      var before := RoleList(profiles.value, t.index, t.role).value;
      var after := RoleList(doc, t.index, t.role).value;
      var k := FindFirst(before, ProfileIs(data.value.profileId)).value;
      |after| == |before| &&
      before[k].id == data.value.profileId &&
      after[k].id == before[k].id && after[k].pin == data.value.newPin &&
      (forall j :: 0 <= j < |before| && j != k ==> after[j] == before[j]) &&
      (forall i, role :: i != t.index || role != t.role ==> RoleList(doc, i, role) == RoleList(profiles.value, i, role))
  {
  }

  /** The profile deletion of an approved delete_profile request: the role
      list keeps the profiles whose id differs. Finding the location is
      enough for the change to count as applied. */
  function ProfileDeletion(profiles: Option<ProfilesDoc>, data: Option<AuthData>): (r: Applied<ProfilesDoc>)
    ensures r.Threw? <==> TargetOf(profiles, data) == TargetThrew
    ensures r.Changed? <==> TargetOf(profiles, data).Location?
  {
    var t := TargetOf(profiles, data);
    if t == TargetThrew then Threw
    else if t == NoLocation then Unchanged
    else
      var list := RoleList(profiles.value, t.index, t.role).value;
      Changed(WithRoleList(profiles.value, t.index, t.role, Filter(list, ProfileIsNot(data.value.profileId))))
  }

  /** Deletion removes exactly the profiles with the requested id from that
      one role list, keeps the order of the rest, and touches nothing else. */
  lemma DeletionRemovesExactly(profiles: Option<ProfilesDoc>, data: Option<AuthData>)
    requires ProfileDeletion(profiles, data).Changed?
    ensures TargetOf(profiles, data).Location?
    ensures
      var t := TargetOf(profiles, data);
      var doc := ProfileDeletion(profiles, data).doc;
      var before := RoleList(profiles.value, t.index, t.role).value;
      var after := RoleList(doc, t.index, t.role).value;
      (forall j :: 0 <= j < |after| ==> after[j] in before && after[j].id != data.value.profileId) &&
      (forall j :: 0 <= j < |before| && before[j].id != data.value.profileId ==> before[j] in after) &&
      Subsequence(after, before) &&
      (forall i, role :: i != t.index || role != t.role ==> RoleList(doc, i, role) == RoleList(profiles.value, i, role))
  {
    var t := TargetOf(profiles, data);
    FilterSubsequence(RoleList(profiles.value, t.index, t.role).value, ProfileIsNot(data.value.profileId));
    FilterKeepsAll(RoleList(profiles.value, t.index, t.role).value, ProfileIsNot(data.value.profileId));
  }

  /** `p => p.id === auth.data.productId`. */
  function ProductIs(productId: Option<string>): Product -> bool {
    p => Field(p, "id") == JsOf(productId)
  }

  /** `Object.assign(product, changes)`: the changes win; undefined or null
      changes assign nothing. */
  function Assign(product: Product, changes: Option<map<string, Json>>): (r: Product)
    ensures changes.None? ==> r == product
    ensures changes.Some? ==> r.Keys == product.Keys + changes.value.Keys
    ensures changes.Some? ==> forall k :: k in changes.value ==> r[k] == changes.value[k]
    ensures forall k :: k in product && (changes.None? || k !in changes.value) ==> r[k] == product[k]
  {
    if changes.Some? then product + changes.value else product
  }

  /** The product change of an approved product_change request on the list
      read from products.json: the first product with the requested id takes
      the changes and the update time. */
  function ProductUpdate(products: seq<Product>, data: Option<AuthData>, now: int): (r: Applied<seq<Product>>)
    ensures r.Changed? ==> |r.doc| == |products|
    ensures r.Threw? <==> |products| > 0 && data.None?
  {
    if |products| == 0 then Unchanged
    else if data.None? then Threw
    else
      var found := FindFirst(products, ProductIs(data.value.productId));
      if found.None? then Unchanged
      else
        var p := Assign(products[found.value], data.value.changes)["updatedAt" := Num(now)];
        Changed(products[found.value := p])
  }

  /** A product change applies exactly when the request names a product
      the list holds. */
  lemma ProductUpdateApplies(products: seq<Product>, data: Option<AuthData>, now: int)
    ensures ProductUpdate(products, data, now).Changed? <==>
      data.Some? && FindFirst(products, ProductIs(data.value.productId)).Some?
  {
  }

  /** A product change rewrites one product, the first with the requested
      id: it carries every requested change (the update time overrides a
      requested `updatedAt`), keeps its other fields, and every other product
      is as it was. */
  lemma ProductUpdateOnlyTarget(products: seq<Product>, data: Option<AuthData>, now: int)
    requires ProductUpdate(products, data, now).Changed?
    ensures data.Some? && FindFirst(products, ProductIs(data.value.productId)).Some?
    ensures
      var k := FindFirst(products, ProductIs(data.value.productId)).value;
      var after := ProductUpdate(products, data, now).doc;
      Field(products[k], "id") == JsOf(data.value.productId) &&
      after[k]["updatedAt"] == Num(now) &&
      (data.value.changes.Some? ==> forall key :: key in data.value.changes.value && key != "updatedAt" ==>
        after[k][key] == data.value.changes.value[key]) &&
      (forall key :: key in products[k] && key != "updatedAt" && (data.value.changes.None? || key !in data.value.changes.value) ==>
        after[k][key] == products[k][key]) &&
      (forall j :: 0 <= j < |products| && j != k ==> after[j] == products[j])
  {
    var k := FindFirst(products, ProductIs(data.value.productId)).value;
    var p := Assign(products[k], data.value.changes)["updatedAt" := Num(now)];
    assert ProductUpdate(products, data, now).doc == products[k := p];
    StampedChanges(products[k], data.value.changes, now);
  }

  /** The product a change rewrites: stamped, with the changes, and
      otherwise as it was. */
  lemma StampedChanges(product: Product, changes: Option<map<string, Json>>, now: int)
    ensures
      var p := Assign(product, changes)["updatedAt" := Num(now)];
      p["updatedAt"] == Num(now) &&
      (changes.Some? ==> forall key :: key in changes.value && key != "updatedAt" ==> p[key] == changes.value[key]) &&
      (forall key :: key in product && key != "updatedAt" && (changes.None? || key !in changes.value) ==> p[key] == product[key])
  {
  }
  // ---------------------------------------------------------------------
  // What an approval does
  // ---------------------------------------------------------------------

  /** The file an approval rewrites besides authorizations.json, if any. */
  datatype Effect = Failed | NoEffect | ProfilesWritten(doc: ProfilesDoc) | ProductsWritten(list: seq<Product>)

  function ProfilesEffect(a: Applied<ProfilesDoc>): Effect {
    match a
    case Threw => Failed
    case Unchanged => NoEffect
    case Changed(doc) => ProfilesWritten(doc)
  }

  /** The change an approval applies: a PIN change in both versions, and in
      the enhanced version (`enhanced`) also a product change or a profile
      deletion; other types change nothing else. */
  function ApprovalEffect(a: Authorization, profiles: Option<ProfilesDoc>, products: Option<seq<Product>>,
                          now: int, enhanced: bool): (e: Effect)
    ensures e.ProductsWritten? ==> enhanced && a.kind == Some(ProductChange)
    ensures e.ProfilesWritten? ==> a.kind == Some(ChangePin) || (enhanced && a.kind == Some(DeleteProfile))
    ensures a.kind != Some(ChangePin) && (!enhanced || (a.kind != Some(ProductChange) && a.kind != Some(DeleteProfile))) ==>
      e == NoEffect
  {
    if a.kind == Some(ChangePin) then ProfilesEffect(PinChange(profiles, a.data, if enhanced then Some(now) else None))
    else if enhanced && a.kind == Some(ProductChange) then
      match ProductUpdate(products.GetOr([]), a.data, now)
      case Threw => Failed
      case Unchanged => NoEffect
      case Changed(list) => ProductsWritten(list)
    else if enhanced && a.kind == Some(DeleteProfile) then ProfilesEffect(ProfileDeletion(profiles, a.data))
    else NoEffect
  }

  const ApprovedLogType := "authorization_approved"
  const RejectedLogType := "authorization_rejected"

  /** The logged fields of an approval (besides its type). */
  function ApprovalLog(a: Authorization, approvedBy: string, authId: string): map<string, Json> {
    map["authType" := JsOf(a.kind),
        "description" := Str("Autorizaci\U{00F3}n aprobada: " + Text(a.kind)),
        "requestedBy" := JsOf(a.requestedBy),
        "approvedBy" := Str(approvedBy),
        "authId" := Str(authId)]
  }

  /** The logged fields of a rejection (besides its type). */
  function RejectionLog(a: Authorization, rejectedBy: string, authId: string): map<string, Json> {
    map["authType" := JsOf(a.kind),
        "description" := Str("Autorizaci\U{00F3}n rechazada: " + Text(a.kind)),
        "requestedBy" := JsOf(a.requestedBy),
        "rejectedBy" := Str(rejectedBy),
        "authId" := Str(authId)]
  }
}
