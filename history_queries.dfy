/** The two history queries of src/shared/utils.js: the change log
    (`getChangeHistory`) and the voided sales (`getVoidedSales`). Both
    filter, sort newest first with a stable sort, and cut at a limit. */
module HistoryQueries {
  import opened JsValues
  import opened Seqs
  import opened PosRecords

  const DefaultHistoryLimit := 50
  const DefaultVoidedLimit := 20

  /** Sort key putting later entries first. */
  function NewestFirst(h: ChangeEntry): int { -h.timestamp }

  /** The time an order was voided; an order without one is placed as time
      0. */
  function VoidTime(o: Order): int { o.voidedAt.GetOr(0) }

  function LatestVoidFirst(o: Order): int { -VoidTime(o) }

  /** The entries `getChangeHistory` keeps before sorting: all of them, or
      those of the requested type when one is given. */
  predicate OfKind(h: ChangeEntry, kind: Option<string>) {
    !Present(kind) || h.kind == kind
  }

  function OfKindFilter(kind: Option<string>): ChangeEntry -> bool {
    h => OfKind(h, kind)
  }

  /** `getChangeHistory(limit, type)` over change_history.json (a missing
      file reads as []); an undefined limit is 50. */
  function ChangeHistory(history: Option<seq<ChangeEntry>>, limit: Option<int>, kind: Option<string>): (r: seq<ChangeEntry>)
    ensures forall i :: 0 <= i < |r| ==> r[i] in history.GetOr([]) && OfKind(r[i], kind)
    ensures forall i, j :: 0 <= i < j < |r| ==> r[i].timestamp >= r[j].timestamp
    ensures limit.GetOr(DefaultHistoryLimit) >= 0 ==> |r| <= limit.GetOr(DefaultHistoryLimit)
    ensures |r| <= |history.GetOr([])|
    ensures multiset(r) <= multiset(Filter(history.GetOr([]), OfKindFilter(kind)))
  {
    SliceMultiset(SortByKey(Filter(history.GetOr([]), OfKindFilter(kind)), NewestFirst), limit.GetOr(DefaultHistoryLimit));
    FilterSortSliceMembers(history.GetOr([]), OfKindFilter(kind), NewestFirst, limit.GetOr(DefaultHistoryLimit));
    SliceAscending(SortByKey(Filter(history.GetOr([]), OfKindFilter(kind)), NewestFirst), NewestFirst, limit.GetOr(DefaultHistoryLimit));
    SliceTo(SortByKey(Filter(history.GetOr([]), OfKindFilter(kind)), NewestFirst), limit.GetOr(DefaultHistoryLimit))
  }

  /** Nothing newer is left out: a matching entry missing from the result
      means the result is full and every entry in it is at least as recent. */
  lemma HistoryKeepsNewest(history: seq<ChangeEntry>, limit: Option<int>, kind: Option<string>, j: nat)
    requires j < |history| && OfKind(history[j], kind)
    requires limit.GetOr(DefaultHistoryLimit) >= 0
    requires history[j] !in ChangeHistory(Some(history), limit, kind)
    ensures |ChangeHistory(Some(history), limit, kind)| == limit.GetOr(DefaultHistoryLimit)
    ensures forall i :: 0 <= i < |ChangeHistory(Some(history), limit, kind)| ==>
      ChangeHistory(Some(history), limit, kind)[i].timestamp >= history[j].timestamp
  {
    var lim := limit.GetOr(DefaultHistoryLimit);
    NewestKept(history, kind, lim, j);
  }

  lemma NewestKept(history: seq<ChangeEntry>, kind: Option<string>, lim: nat, j: nat)
    requires j < |history| && OfKind(history[j], kind)
    requires history[j] !in SliceTo(SortByKey(Filter(history, OfKindFilter(kind)), NewestFirst), lim)
    ensures var r := SliceTo(SortByKey(Filter(history, OfKindFilter(kind)), NewestFirst), lim);
      |r| == lim && forall i :: 0 <= i < |r| ==> r[i].timestamp >= history[j].timestamp
  {
    var r := SliceTo(SortByKey(Filter(history, OfKindFilter(kind)), NewestFirst), lim);
    FilterSortSliceSmallest(history, OfKindFilter(kind), NewestFirst, lim, j);
    forall i | 0 <= i < |r|
      ensures r[i].timestamp >= history[j].timestamp
    {
      assert NewestFirst(r[i]) <= NewestFirst(history[j]);
    }
  }

  /** The orders `getVoidedSales` keeps before sorting: voided ones and, when
      a location is given, of that location. */
  predicate VoidedAt(o: Order, localId: Option<string>) {
    o.status == Some(Voided) && (!Present(localId) || o.localId == localId)
  }

  function VoidedFilter(localId: Option<string>): Order -> bool {
    o => VoidedAt(o, localId)
  }

  /** `getVoidedSales(localId, limit)` over orders.json (a missing file reads
      as []); an undefined limit is 20. The two filters of the source are
      applied as one, which keeps the same orders in the same order. */
  function VoidedSales(orders: Option<seq<Order>>, localId: Option<string>, limit: Option<int>): (r: seq<Order>)
    ensures forall i :: 0 <= i < |r| ==> r[i] in orders.GetOr([]) && VoidedAt(r[i], localId)
    ensures forall i, j :: 0 <= i < j < |r| ==> VoidTime(r[i]) >= VoidTime(r[j])
    ensures limit.GetOr(DefaultVoidedLimit) >= 0 ==> |r| <= limit.GetOr(DefaultVoidedLimit)
    ensures |r| <= |orders.GetOr([])|
    ensures multiset(r) <= multiset(Filter(orders.GetOr([]), VoidedFilter(localId)))
  {
    SliceMultiset(SortByKey(Filter(orders.GetOr([]), VoidedFilter(localId)), LatestVoidFirst), limit.GetOr(DefaultVoidedLimit));
    FilterSortSliceMembers(orders.GetOr([]), VoidedFilter(localId), LatestVoidFirst, limit.GetOr(DefaultVoidedLimit));
    SliceAscending(SortByKey(Filter(orders.GetOr([]), VoidedFilter(localId)), LatestVoidFirst), LatestVoidFirst, limit.GetOr(DefaultVoidedLimit));
    SliceTo(SortByKey(Filter(orders.GetOr([]), VoidedFilter(localId)), LatestVoidFirst), limit.GetOr(DefaultVoidedLimit))
  }

  /** No more recent voided sale of the location is left out. */
  lemma VoidedKeepsLatest(orders: seq<Order>, localId: Option<string>, limit: Option<int>, j: nat)
    requires j < |orders| && VoidedAt(orders[j], localId)
    requires limit.GetOr(DefaultVoidedLimit) >= 0
    requires orders[j] !in VoidedSales(Some(orders), localId, limit)
    ensures |VoidedSales(Some(orders), localId, limit)| == limit.GetOr(DefaultVoidedLimit)
    ensures forall i :: 0 <= i < |VoidedSales(Some(orders), localId, limit)| ==>
      VoidTime(VoidedSales(Some(orders), localId, limit)[i]) >= VoidTime(orders[j])
  {
    var lim := limit.GetOr(DefaultVoidedLimit);
    LatestKept(orders, localId, lim, j);
  }

  lemma LatestKept(orders: seq<Order>, localId: Option<string>, lim: nat, j: nat)
    requires j < |orders| && VoidedAt(orders[j], localId)
    requires orders[j] !in SliceTo(SortByKey(Filter(orders, VoidedFilter(localId)), LatestVoidFirst), lim)
    ensures var r := SliceTo(SortByKey(Filter(orders, VoidedFilter(localId)), LatestVoidFirst), lim);
      |r| == lim && forall i :: 0 <= i < |r| ==> VoidTime(r[i]) >= VoidTime(orders[j])
  {
    var r := SliceTo(SortByKey(Filter(orders, VoidedFilter(localId)), LatestVoidFirst), lim);
    FilterSortSliceSmallest(orders, VoidedFilter(localId), LatestVoidFirst, lim, j);
    forall i | 0 <= i < |r|
      ensures VoidTime(r[i]) >= VoidTime(orders[j])
    {
      assert LatestVoidFirst(r[i]) <= LatestVoidFirst(orders[j]);
    }
  }

  /** Entries logged at the same time come back in the order the log holds
      them (the sort is stable): of the entries whose sort key is `k` (those
      with timestamp -k), the ones returned are the first of them in the
      log, in log order. */
  lemma HistoryTiesInLogOrder(history: seq<ChangeEntry>, limit: Option<int>, kind: Option<string>, k: int)
    ensures Filter(ChangeHistory(Some(history), limit, kind), KeyIs(NewestFirst, k))
      <= Filter(Filter(history, OfKindFilter(kind)), KeyIs(NewestFirst, k))
  {
    SliceStable(Filter(history, OfKindFilter(kind)), NewestFirst, limit.GetOr(DefaultHistoryLimit), k);
  }

  /** Orders voided at the same time come back in file order. */
  lemma VoidedTiesInFileOrder(orders: seq<Order>, localId: Option<string>, limit: Option<int>, k: int)
    ensures Filter(VoidedSales(Some(orders), localId, limit), KeyIs(LatestVoidFirst, k))
      <= Filter(Filter(orders, VoidedFilter(localId)), KeyIs(LatestVoidFirst, k))
  {
    SliceStable(Filter(orders, VoidedFilter(localId)), LatestVoidFirst, limit.GetOr(DefaultVoidedLimit), k);
  }
}
