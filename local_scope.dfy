/** Per-location isolation of the renderer's data (src/shared/utils.js):
    records are stamped with the location that created them, and a read
    for a location sees only that location's records. */
module LocalScope {
  import opened JsValues
  import opened Seqs
  import opened AppData

  const LocalIdKey := "localId"

  /** A call that returns a value or throws a TypeError. */
  datatype Outcome<T> = Returned(value: T) | Threw

  /** `obj[key] = value` on an object's members: an existing property keeps
      its place and takes the value, a new one is added last. */
  function SetMember(ms: seq<Member>, key: string, value: Json): (r: seq<Member>)
    ensures LookupMember(r, key) == value
    ensures forall k :: k != key ==> LookupMember(r, k) == LookupMember(ms, k)
  {
    if |ms| == 0 then [Member(key, value)]
    else if ms[0].key == key then [Member(key, value)] + ms[1..]
    else [ms[0]] + SetMember(ms[1..], key, value)
  }

  /** `ensureLocalId(data, localId)`: with a location, an object gets its
      `localId`; null or undefined data throws; on any other value the
      assignment leaves nothing that JSON keeps. */
  function EnsureLocalId(data: Json, localId: Option<string>): (r: Outcome<Json>)
    ensures !Present(localId) ==> r == Returned(data)
    ensures r == Threw <==> Present(localId) && (data == Null || data == Undefined)
    ensures Present(localId) && data.Obj? ==>
      r.Returned? && Property(r.value, LocalIdKey) == Str(localId.value) &&
      forall k :: k != LocalIdKey ==> Property(r.value, k) == Property(data, k)
  {
    if !Present(localId) then Returned(data)
    else match data
      case Undefined => Threw
      case Null => Threw
      case Obj(ms) => Returned(Obj(SetMember(ms, LocalIdKey, Str(localId.value))))
      case _ => Returned(data)
  }

  /** `item => item.localId === localId`. */
  function BelongsTo(localId: string): Json -> bool {
    item => Property(item, LocalIdKey) == Str(localId)
  }

  /** `item.localId` throws on a null or undefined element. */
  predicate HasHole(items: seq<Json>) {
    exists i :: 0 <= i < |items| && (items[i] == Null || items[i] == Undefined)
  }

  /** `readLocalData(filename, localId)` on what readData returned: falsy
      data, no location and profiles.json come back as read; an array keeps
      the elements of the location; any other value comes back as read. */
  function ReadLocalData(data: Json, filename: string, localId: Option<string>): (r: Outcome<Json>)
    ensures !Truthy(data) || !Present(localId) || filename == ProfilesFile || !data.Arr? ==> r == Returned(data)
    ensures r == Threw <==> Truthy(data) && Present(localId) && filename != ProfilesFile && data.Arr? && HasHole(data.items)
    ensures r.Returned? && data.Arr? && Present(localId) && filename != ProfilesFile ==>
      r.value.Arr? &&
      (forall i :: 0 <= i < |r.value.items| ==> r.value.items[i] in data.items && Property(r.value.items[i], LocalIdKey) == Str(localId.value)) &&
      (forall i :: 0 <= i < |data.items| && Property(data.items[i], LocalIdKey) == Str(localId.value) ==> data.items[i] in r.value.items) &&
      Subsequence(r.value.items, data.items)
  {
    if !Truthy(data) || !Present(localId) || filename == ProfilesFile then Returned(data)
    else if data.Arr? then
      if HasHole(data.items) then Threw
      else
        FilterKeepsAll(data.items, BelongsTo(localId.value));
        FilterSubsequence(data.items, BelongsTo(localId.value));
        Returned(Arr(Filter(data.items, BelongsTo(localId.value))))
    else Returned(data)
  }

  /** A record stamped by `ensureLocalId` for a location is seen by that
      location's reads of the file it is stored in. */
  lemma StampedRecordIsVisible(record: Json, localId: string, items: seq<Json>, filename: string)
    requires localId != "" && record.Obj? && filename != ProfilesFile
    requires EnsureLocalId(record, Some(localId)).value in items
    requires !HasHole(items)
    ensures ReadLocalData(Arr(items), filename, Some(localId)).Returned?
    ensures EnsureLocalId(record, Some(localId)).value in ReadLocalData(Arr(items), filename, Some(localId)).value.items
  {
  }

  /** The elements of a location have a `localId`, so none is null. */
  lemma KeptHaveNoHole(items: seq<Json>, localId: string)
    ensures !HasHole(Filter(items, BelongsTo(localId)))
  {
    var kept := Filter(items, BelongsTo(localId));
    forall i | 0 <= i < |kept|
      ensures kept[i] != Null && kept[i] != Undefined
    {
      assert Property(kept[i], LocalIdKey) == Str(localId);
    }
  }

  /** Reading a location's view again changes nothing. */
  lemma ReadLocalDataIdempotent(data: Json, filename: string, localId: Option<string>)
    requires ReadLocalData(data, filename, localId).Returned?
    ensures ReadLocalData(ReadLocalData(data, filename, localId).value, filename, localId) == ReadLocalData(data, filename, localId)
  {
    if Truthy(data) && Present(localId) && filename != ProfilesFile && data.Arr? {
      var p := BelongsTo(localId.value);
      var kept := Filter(data.items, p);
      assert ReadLocalData(data, filename, localId) == Returned(Arr(kept));
      FilterIdempotent(data.items, p);
      KeptHaveNoHole(data.items, localId.value);
      assert ReadLocalData(Arr(kept), filename, localId) == Returned(Arr(Filter(kept, p)));
    }
  }
}
