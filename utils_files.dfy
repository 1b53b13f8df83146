/** The read-modify-write operations of src/shared/utils.js over the local
    JSON files. Each file is a field: None stands for the null that
    `readData` returns when a file is missing or cannot be read. An
    operation reads the files it needs, changes the copy and writes it back;
    a TypeError thrown on the way is caught, the operation returns false and
    nothing is written. The clock (`now`) and `generateId()` (`newId`) are
    parameters. */
module UtilsFiles {
  import opened JsValues
  import opened Seqs
  import opened PosRecords
  import opened CashierSessions
  import opened Authorizations
  import opened SaleVoids

  const SaleVoidLogType := "sale_void"

  class DataFiles {
    var sessions: Option<Sessions>
    var authorizations: Option<seq<Authorization>>
    var profiles: Option<ProfilesDoc>
    var products: Option<seq<Product>>
    var orders: Option<seq<Order>>
    var history: Option<seq<ChangeEntry>>

    constructor (sessions0: Option<Sessions>, authorizations0: Option<seq<Authorization>>,
                 profiles0: Option<ProfilesDoc>, products0: Option<seq<Product>>,
                 orders0: Option<seq<Order>>, history0: Option<seq<ChangeEntry>>)
      ensures sessions == sessions0 && authorizations == authorizations0 && profiles == profiles0
      ensures products == products0 && orders == orders0 && history == history0
    {
      sessions := sessions0;
      authorizations := authorizations0;
      profiles := profiles0;
      products := products0;
      orders := orders0;
      history := history0;
    }

    /** `checkAndSetCashierSession(cashierName, localId)`: without the file
        the lookup throws; a different active cashier is refused and nothing
        is written; otherwise the location's entry names this cashier. */
    method CheckAndSetCashierSession(cashierName: string, localId: string, now: int) returns (ok: bool)
      modifies this`sessions
      ensures ok <==> old(sessions).Some? && LockGranted(old(sessions).value, cashierName, localId)
      ensures sessions == if ok then Some(Locked(old(sessions).value, cashierName, localId, now)) else old(sessions)
    {
      if sessions.None? {
        return false;
      }
      var s := sessions.value;
      var key := LocalKey(localId);
      var entry := if key in s then s[key] else SessionEntry(None, None);
      var active := entry.activeCashier;
      if Present(active) && active.value != cashierName {
        return false;
      }
      s := s[key := entry.(activeCashier := Some(cashierName), lastUpdated := Some(now))];
      sessions := Some(s);
      return true;
    }

    /** `clearCashierSession(localId)`: an existing entry of the location
        loses its cashier; only a missing file makes it fail. */
    method ClearCashierSession(localId: string, now: int) returns (ok: bool)
      modifies this`sessions
      ensures ok <==> old(sessions).Some?
      ensures sessions == if ok then Some(Cleared(old(sessions).value, localId, now)) else old(sessions)
    {
      if sessions.None? {
        return false;
      }
      var s := sessions.value;
      var key := LocalKey(localId);
      if key in s {
        s := s[key := s[key].(activeCashier := None, lastUpdated := Some(now))];
        sessions := Some(s);
      }
      return true;
    }

    /** `createAuthorization(authData)`: appends the request. */
    method CreateAuthorization(auth: Authorization) returns (ok: bool)
      modifies this`authorizations
      ensures ok
      ensures authorizations == Some(old(authorizations).GetOr([]) + [auth])
    {
      var data := authorizations.GetOr([]);
      data := data + [auth];
      authorizations := Some(data);
      return true;
    }

    /** `logChange(changeData)`: appends an entry with a fresh id and the
        current time. */
    method LogChange(kind: string, details: map<string, Json>, newId: string, now: int) returns (ok: bool)
      modifies this`history
      ensures ok
      ensures history == Some(old(history).GetOr([]) + [ChangeEntry(newId, now, Some(kind), details)])
    {
      var h := history.GetOr([]);
      h := h + [ChangeEntry(newId, now, Some(kind), details)];
      history := Some(h);
      return true;
    }

    /** `approveAuthorization(authId)`: an unknown id fails with nothing
        written; a change_pin request also rewrites profiles.json when it
        finds the profile, and fails with nothing written when the lookup
        throws. */
    method ApproveAuthorization(authId: string, now: int) returns (ok: bool)
      modifies this`authorizations, this`profiles
      ensures
        var auths := old(authorizations).GetOr([]);
        var found := FindAuth(auths, authId);
        var effect := if found.Some? then ApprovalEffect(auths[found.value], old(profiles), None, now, false) else Failed;
        && (ok <==> found.Some? && !effect.Failed?)
        && (!ok ==> authorizations == old(authorizations) && profiles == old(profiles))
        && (ok ==> authorizations == Some(Updated(auths, found.value, MarkApproved(auths[found.value], now, None))))
        && (ok ==> profiles == if effect.ProfilesWritten? then Some(effect.doc) else old(profiles))
    {
      var data := authorizations.GetOr([]);
      var found := FindAuth(data, authId);
      if found.None? {
        return false;
      }
      var i := found.value;
      var auth := MarkApproved(data[i], now, None);
      if auth.kind == Some(ChangePin) {
        var change := PinChange(profiles, auth.data, None);
        if change.Threw? {
          return false;
        }
        if change.Changed? {
          profiles := Some(change.doc);
        }
      }
      authorizations := Some(Updated(data, i, auth));
      return true;
    }

    /** `rejectAuthorization(authId)`: an unknown id fails with nothing
        written. */
    method RejectAuthorization(authId: string, now: int) returns (ok: bool)
      modifies this`authorizations
      ensures
        var auths := old(authorizations).GetOr([]);
        var found := FindAuth(auths, authId);
        && (ok <==> found.Some?)
        && (!ok ==> authorizations == old(authorizations))
        && (ok ==> authorizations == Some(Updated(auths, found.value, MarkRejected(auths[found.value], now, None))))
    {
      var data := authorizations.GetOr([]);
      var found := FindAuth(data, authId);
      if found.None? {
        return false;
      }
      var i := found.value;
      authorizations := Some(Updated(data, i, MarkRejected(data[i], now, None)));
      return true;
    }

    /** `approveAuthorizationEnhanced(authId, approvedBy)`: as the plain
        approval, recording the approver; product_change and delete_profile
        are applied too, and the approval is logged only when a change was
        applied. */
    method ApproveAuthorizationEnhanced(authId: string, approvedBy: string, now: int, newId: string) returns (ok: bool)
      modifies this`authorizations, this`profiles, this`products, this`history
      ensures
        var auths := old(authorizations).GetOr([]);
        var found := FindAuth(auths, authId);
        var effect := if found.Some? then ApprovalEffect(auths[found.value], old(profiles), old(products), now, true) else Failed;
        && (ok <==> found.Some? && !effect.Failed?)
        && (!ok ==> authorizations == old(authorizations) && profiles == old(profiles) &&
                    products == old(products) && history == old(history))
        && (ok ==> authorizations == Some(Updated(auths, found.value, MarkApproved(auths[found.value], now, Some(approvedBy)))))
        && (ok ==> profiles == if effect.ProfilesWritten? then Some(effect.doc) else old(profiles))
        && (ok ==> products == if effect.ProductsWritten? then Some(effect.list) else old(products))
        && (ok ==> history == if effect == NoEffect then old(history)
                              else Some(old(history).GetOr([]) +
                                        [ChangeEntry(newId, now, Some(ApprovedLogType), ApprovalLog(auths[found.value], approvedBy, authId))]))
    {
      var data := authorizations.GetOr([]);
      var found := FindAuth(data, authId);
      if found.None? {
        return false;
      }
      var i := found.value;
      var auth := MarkApproved(data[i], now, Some(approvedBy));
      var changeApplied := false;
      if auth.kind == Some(ChangePin) {
        var change := PinChange(profiles, auth.data, Some(now));
        if change.Threw? {
          return false;
        }
        if change.Changed? {
          profiles := Some(change.doc);
          changeApplied := true;
        }
      } else if auth.kind == Some(ProductChange) {
        var change := ProductUpdate(products.GetOr([]), auth.data, now);
        if change.Threw? {
          return false;
        }
        if change.Changed? {
          products := Some(change.doc);
          changeApplied := true;
        }
      } else if auth.kind == Some(DeleteProfile) {
        var change := ProfileDeletion(profiles, auth.data);
        if change.Threw? {
          return false;
        }
        if change.Changed? {
          profiles := Some(change.doc);
          changeApplied := true;
        }
      }
      authorizations := Some(Updated(data, i, auth));
      if changeApplied {
        var _ := LogChange(ApprovedLogType, ApprovalLog(data[i], approvedBy, authId), newId, now);
      }
      return true;
    }

    /** `rejectAuthorizationEnhanced(authId, rejectedBy)`: as the plain
        rejection, recording who rejected; every rejection is logged. */
    method RejectAuthorizationEnhanced(authId: string, rejectedBy: string, now: int, newId: string) returns (ok: bool)
      modifies this`authorizations, this`history
      ensures
        var auths := old(authorizations).GetOr([]);
        var found := FindAuth(auths, authId);
        && (ok <==> found.Some?)
        && (!ok ==> authorizations == old(authorizations) && history == old(history))
        && (ok ==> authorizations == Some(Updated(auths, found.value, MarkRejected(auths[found.value], now, Some(rejectedBy)))))
        && (ok ==> history == Some(old(history).GetOr([]) +
                                   [ChangeEntry(newId, now, Some(RejectedLogType), RejectionLog(auths[found.value], rejectedBy, authId))]))
    {
      var data := authorizations.GetOr([]);
      var found := FindAuth(data, authId);
      if found.None? {
        return false;
      }
      var i := found.value;
      authorizations := Some(Updated(data, i, MarkRejected(data[i], now, Some(rejectedBy))));
      var _ := LogChange(RejectedLogType, RejectionLog(data[i], rejectedBy, authId), newId, now);
      return true;
    }

    /** `voidSale(orderId, voidedBy, reason)`: a missing or already voided
        order fails with nothing written; otherwise the order is voided and
        the void is logged. */
    method VoidSale(orderId: string, voidedBy: string, reason: string, now: int, newId: string) returns (ok: bool)
      modifies this`orders, this`history
      ensures
        var list := old(orders).GetOr([]);
        && (ok <==> CanVoid(list, orderId))
        && (!ok ==> orders == old(orders) && history == old(history))
        && (ok ==> orders == Some(AfterVoid(list, orderId, voidedBy, reason, now)))
        && (ok ==> history == Some(old(history).GetOr([]) +
                                   [ChangeEntry(newId, now, Some(SaleVoidLogType),
                                                VoidLog(orderId, list[FindOrder(list, orderId).value], voidedBy, reason))]))
    {
      var list := orders.GetOr([]);
      var found := FindOrder(list, orderId);
      if found.None? {
        return false;
      }
      var i := found.value;
      if list[i].status == Some(Voided) {
        return false;
      }
      var order := MarkVoided(list[i], voidedBy, reason, now);
      orders := Some(list[i := order]);
      var _ := LogChange(SaleVoidLogType, VoidLog(orderId, list[i], voidedBy, reason), newId, now);
      return true;
    }
  }
}
