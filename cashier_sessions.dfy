/** The per-location cashier lock kept in active_sessions.json: one cashier
    at a time may hold the till of a location. */
module CashierSessions {
  import opened JsValues
  import opened PosRecords

  /** The cashier recorded for `localId`; a missing entry reads as
      `{activeCashier: null}`. */
  function ActiveCashier(sessions: Sessions, localId: string): Option<string> {
    var key := LocalKey(localId);
    if key in sessions then sessions[key].activeCashier else None
  }

  /** `checkAndSetCashierSession` refuses only when a different cashier
      (a non-empty name) is active for the location. */
  predicate LockGranted(sessions: Sessions, cashierName: string, localId: string)
    ensures !Present(ActiveCashier(sessions, localId)) ==> LockGranted(sessions, cashierName, localId)
    ensures LockGranted(sessions, cashierName, localId) && Present(ActiveCashier(sessions, localId)) ==>
      ActiveCashier(sessions, localId) == Some(cashierName)
  {
    var active := ActiveCashier(sessions, localId);
    !Present(active) || active.value == cashierName
  }

  /** active_sessions.json after a granted lock: the location's entry, created
      if it was missing, names the cashier and the time. */
  function Locked(sessions: Sessions, cashierName: string, localId: string, now: int): (r: Sessions)
    ensures r.Keys == sessions.Keys + {LocalKey(localId)}
    ensures ActiveCashier(r, localId) == Some(cashierName)
    ensures r[LocalKey(localId)].lastUpdated == Some(now)
    ensures forall key :: key in sessions && key != LocalKey(localId) ==> r[key] == sessions[key]
  {
    sessions[LocalKey(localId) := SessionEntry(Some(cashierName), Some(now))]
  }

  /** active_sessions.json after `clearCashierSession`: an existing entry
      loses its cashier; a missing one is not created. */
  function Cleared(sessions: Sessions, localId: string, now: int): (r: Sessions)
    ensures r.Keys == sessions.Keys
    ensures ActiveCashier(r, localId) == None
    ensures LocalKey(localId) in sessions ==> r[LocalKey(localId)].lastUpdated == Some(now)
    ensures forall key :: key in sessions && key != LocalKey(localId) ==> r[key] == sessions[key]
  {
    var key := LocalKey(localId);
    if key in sessions then sessions[key := SessionEntry(None, Some(now))] else sessions
  }

  /** The cashier who holds the lock may log in again. */
  lemma LockReentrant(sessions: Sessions, cashierName: string, localId: string, now: int)
    ensures LockGranted(Locked(sessions, cashierName, localId, now), cashierName, localId)
  {
  }

  /** While a named cashier holds the lock, every other cashier is refused. */
  lemma LockExcludes(sessions: Sessions, cashierName: string, localId: string, now: int, other: string)
    requires cashierName != "" && other != cashierName
    ensures !LockGranted(Locked(sessions, cashierName, localId, now), other, localId)
  {
  }

  /** Locking one location does not change who may lock another. */
  lemma LockIsPerLocation(sessions: Sessions, cashierName: string, localId: string, now: int, other: string, otherLocal: string)
    requires otherLocal != localId
    ensures LockGranted(Locked(sessions, cashierName, localId, now), other, otherLocal) == LockGranted(sessions, other, otherLocal)
  {
    LocalKeyInjective(localId, otherLocal);
  }

  /** After a clear, any cashier may take the location. */
  lemma ClearReleases(sessions: Sessions, localId: string, now: int, cashierName: string)
    ensures LockGranted(Cleared(sessions, localId, now), cashierName, localId)
  {
  }
}
