/** Voiding a sale in orders.json (src/shared/utils.js): an order can be
    voided once, and a voided order is what the voided-sales query lists. */
module SaleVoids {
  import opened JsValues
  import opened Seqs
  import opened PosRecords
  import opened HistoryQueries

  /** `o => o.id === orderId`. */
  function OrderIs(orderId: string): Order -> bool {
    (o: Order) => o.id == Some(orderId)
  }

  /** `orders.find(o => o.id === orderId)`, as an index. */
  function FindOrder(orders: seq<Order>, orderId: string): (r: Option<nat>)
    ensures r.Some? ==> r.value < |orders| && orders[r.value].id == Some(orderId)
    ensures r.Some? ==> forall j :: 0 <= j < r.value ==> orders[j].id != Some(orderId)
    ensures r.None? ==> forall j :: 0 <= j < |orders| ==> orders[j].id != Some(orderId)
  {
    FindFirst(orders, OrderIs(orderId))
  }

  /** `voidSale` goes ahead when the order exists and is not voided yet. */
  predicate CanVoid(orders: seq<Order>, orderId: string) {
    var found := FindOrder(orders, orderId);
    found.Some? && orders[found.value].status != Some(Voided)
  }

  /** The order as `voidSale` leaves it. */
  function MarkVoided(o: Order, voidedBy: string, reason: string, now: int): (r: Order)
    ensures r.status == Some(Voided) && r.voidedAt == Some(now)
    ensures r.voidedBy == Some(voidedBy) && r.voidReason == Some(reason)
    ensures r.id == o.id && r.localId == o.localId && r.orderNumber == o.orderNumber && r.total == o.total
  {
    o.(status := Some(Voided), voidedAt := Some(now), voidedBy := Some(voidedBy), voidReason := Some(reason))
  }

  /** orders.json after a void that went ahead. */
  function AfterVoid(orders: seq<Order>, orderId: string, voidedBy: string, reason: string, now: int): (r: seq<Order>)
    requires CanVoid(orders, orderId)
    ensures |r| == |orders|
    ensures r[FindOrder(orders, orderId).value] == MarkVoided(orders[FindOrder(orders, orderId).value], voidedBy, reason, now)
    ensures forall j :: 0 <= j < |orders| && j != FindOrder(orders, orderId).value ==> r[j] == orders[j]
  {
    var i := FindOrder(orders, orderId).value;
    orders[i := MarkVoided(orders[i], voidedBy, reason, now)]
  }

  /** The log entry fields of a void, besides its type and description. */
  function VoidLog(orderId: string, o: Order, voidedBy: string, reason: string): map<string, Json> {
    map["orderId" := Str(orderId), "orderNumber" := o.orderNumber, "amount" := o.total,
        "user" := Str(voidedBy), "reason" := Str(reason)]
  }

  /** A sale cannot be voided twice. */
  lemma SecondVoidFails(orders: seq<Order>, orderId: string, voidedBy: string, reason: string, now: int)
    requires CanVoid(orders, orderId)
    ensures !CanVoid(AfterVoid(orders, orderId, voidedBy, reason, now), orderId)
  {
    var i := FindOrder(orders, orderId).value;
    var after := AfterVoid(orders, orderId, voidedBy, reason, now);
    assert after[i].id == Some(orderId);
    assert FindOrder(after, orderId) == Some(i);
  }

  /** A voided sale is listed by the voided-sales query of its location,
      unless the list is already full of sales voided no earlier. */
  lemma VoidedSaleIsListed(orders: seq<Order>, orderId: string, voidedBy: string, reason: string, now: int,
                           localId: Option<string>, limit: Option<int>)
    requires CanVoid(orders, orderId)
    requires !Present(localId) || orders[FindOrder(orders, orderId).value].localId == localId
    requires limit.GetOr(DefaultVoidedLimit) >= 0
    ensures
      var after := AfterVoid(orders, orderId, voidedBy, reason, now);
      var listed := VoidedSales(Some(after), localId, limit);
      after[FindOrder(orders, orderId).value] in listed ||
      (|listed| == limit.GetOr(DefaultVoidedLimit) && forall k :: 0 <= k < |listed| ==> VoidTime(listed[k]) >= now)
  {
    var i := FindOrder(orders, orderId).value;
    var after := AfterVoid(orders, orderId, voidedBy, reason, now);
    assert VoidedAt(after[i], localId);
    if after[i] !in VoidedSales(Some(after), localId, limit) {
      VoidedKeepsLatest(after, localId, limit, i);
    }
  }
}
