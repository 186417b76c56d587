/** The order service over an in-memory order store: creation, listing, retrieval,
    status change and the payment-succeeded handler. The store holds the order rows by
    id, the stored line items of each order, the receipt rows, and the order in which
    orders were inserted, the row order this model gives paging. */
module OrdersService {
  import opened Wrappers
  import opened OrderStatus
  import opened OrderDomain
  import opened Pagination

  // ---------------------------------------------------------------------------------
  // Listing
  // ---------------------------------------------------------------------------------

  datatype PageMeta = PageMeta(total: nat, page: nat, lastPage: nat)
  datatype OrderPage = OrderPage(data: seq<Order>, meta: PageMeta)

  /** The optional status filter of the listing: absent matches every order. */
  predicate Matches(o: Order, status: Option<OrderStatus>)
  {
    status.None? || o.status == status.value
  }

  predicate Distinct<T(==)>(s: seq<T>)
  {
    forall j, k :: 0 <= j < k < |s| ==> s[j] != s[k]
  }

  /** The rows of `ids` that pass the filter, in the order of `ids`. */
  function Listed(ids: seq<OrderId>, orders: map<OrderId, Order>, status: Option<OrderStatus>): (r: seq<Order>)
    requires forall k :: 0 <= k < |ids| ==> ids[k] in orders
    ensures |r| <= |ids|
    ensures forall k :: 0 <= k < |r| ==> Matches(r[k], status)
    ensures forall k :: 0 <= k < |r| ==> r[k] in orders.Values
    ensures forall j :: 0 <= j < |ids| && Matches(orders[ids[j]], status) ==> orders[ids[j]] in r
  {
    if ids == [] then []
    else
      assert forall k :: 1 <= k < |ids| ==> ids[1..][k - 1] == ids[k];
      var rest := Listed(ids[1..], orders, status);
      if Matches(orders[ids[0]], status) then [orders[ids[0]]] + rest else rest
  }

  /** Every listed row is the row of one of the listed ids. */
  lemma {:induction false} ListedFromIds(ids: seq<OrderId>, orders: map<OrderId, Order>, status: Option<OrderStatus>)
    requires forall k :: 0 <= k < |ids| ==> ids[k] in orders
    ensures forall k :: 0 <= k < |Listed(ids, orders, status)| ==>
      exists j :: 0 <= j < |ids| && Listed(ids, orders, status)[k] == orders[ids[j]]
  {
    if ids != [] {
      var r, rest := Listed(ids, orders, status), Listed(ids[1..], orders, status);
      ListedFromIds(ids[1..], orders, status);
      assert r == if Matches(orders[ids[0]], status) then [orders[ids[0]]] + rest else rest;
      forall k | 0 <= k < |r| ensures exists j :: 0 <= j < |ids| && r[k] == orders[ids[j]] {
        if Matches(orders[ids[0]], status) && k == 0 {
          assert r[0] == orders[ids[0]];
        } else {
          var k' := if Matches(orders[ids[0]], status) then k - 1 else k;
          assert r[k] == rest[k'];
          var j :| 0 <= j < |ids[1..]| && rest[k'] == orders[ids[1..][j]];
          assert r[k] == orders[ids[j + 1]];
        }
      }
    } else {
      assert Listed(ids, orders, status) == [];
    }
  }

  /** A newly inserted order, appended to the insertion order, is listed after every
      earlier row when it passes the filter, and the earlier rows do not change. */
  lemma {:induction false} ListedAfterInsert(ids: seq<OrderId>, orders: map<OrderId, Order>,
                                             status: Option<OrderStatus>, id: OrderId, o: Order)
    requires forall k :: 0 <= k < |ids| ==> ids[k] in orders
    requires id !in ids
    ensures Listed(ids + [id], orders[id := o], status) ==
      Listed(ids, orders, status) + (if Matches(o, status) then [o] else [])
  {
    var orders' := orders[id := o];
    if ids == [] {
      assert ([] + [id])[1..] == [];
    } else {
      assert (ids + [id])[1..] == ids[1..] + [id];
      assert forall k :: 1 <= k < |ids| ==> ids[1..][k - 1] == ids[k];
      ListedAfterInsert(ids[1..], orders, status, id, o);
      assert orders'[ids[0]] == orders[ids[0]];
    }
  }

  /** The ids among `ids` whose rows pass the filter. */
  ghost function MatchingIn(ids: seq<OrderId>, orders: map<OrderId, Order>, status: Option<OrderStatus>): set<OrderId>
  {
    set id | id in ids && id in orders && Matches(orders[id], status)
  }

  /** Over distinct ids, the listed rows are as many as the matching ids. */
  lemma {:induction false} ListedCount(ids: seq<OrderId>, orders: map<OrderId, Order>, status: Option<OrderStatus>)
    requires Distinct(ids)
    requires forall k :: 0 <= k < |ids| ==> ids[k] in orders
    ensures |Listed(ids, orders, status)| == |MatchingIn(ids, orders, status)|
  {
    if ids != [] {
      var h, t := ids[0], ids[1..];
      assert forall k :: 1 <= k < |ids| ==> t[k - 1] == ids[k];
      assert Distinct(t);
      ListedCount(t, orders, status);
      assert h !in t;
      MatchingInCons(ids, orders, status);
    }
  }

  /** The matching ids of a non-empty list: its head when that matches, and those of its tail. */
  lemma MatchingInCons(ids: seq<OrderId>, orders: map<OrderId, Order>, status: Option<OrderStatus>)
    requires ids != [] && ids[0] in orders
    ensures MatchingIn(ids, orders, status) ==
      (if Matches(orders[ids[0]], status) then {ids[0]} else {}) + MatchingIn(ids[1..], orders, status)
  {
    assert ids == [ids[0]] + ids[1..];
  }

  /** When `ids` lists exactly the stored ids, the matching ids among them are the
      matching stored ids. */
  lemma MatchingInAll(ids: seq<OrderId>, orders: map<OrderId, Order>, status: Option<OrderStatus>)
    requires forall id :: id in ids <==> id in orders
    ensures MatchingIn(ids, orders, status) == set id | id in orders && Matches(orders[id], status)
    ensures status.None? ==> MatchingIn(ids, orders, status) == orders.Keys
  {
  }

  // ---------------------------------------------------------------------------------
  // Receipts
  // ---------------------------------------------------------------------------------

  predicate HasReceipt(receipts: seq<Receipt>, id: OrderId)
  {
    exists k :: 0 <= k < |receipts| && receipts[k].orderId == id
  }

  /** No order has two receipt rows. */
  predicate ReceiptsUnique(receipts: seq<Receipt>)
  {
    forall j, k :: 0 <= j < k < |receipts| ==> receipts[j].orderId != receipts[k].orderId
  }

  /** Appending a receipt row gives its order a receipt and keeps every other one. */
  lemma ReceiptAppended(receipts: seq<Receipt>, rec: Receipt)
    ensures forall id :: HasReceipt(receipts + [rec], id) <==> HasReceipt(receipts, id) || id == rec.orderId
    ensures ReceiptsUnique(receipts) && !HasReceipt(receipts, rec.orderId) ==> ReceiptsUnique(receipts + [rec])
  {
    var after := receipts + [rec];
    assert after[|receipts|] == rec;
    forall id | HasReceipt(receipts, id) ensures HasReceipt(after, id) {
      var k :| 0 <= k < |receipts| && receipts[k].orderId == id;
      assert after[k] == receipts[k];
    }
  }

  // ---------------------------------------------------------------------------------
  // The store invariant, and the writes that keep it
  // ---------------------------------------------------------------------------------

  /** Every row is stored under its own id, and its totals are those of its stored items. */
  ghost predicate RowsConsistent(orders: map<OrderId, Order>, orderItems: map<OrderId, seq<OrderItem>>)
  {
    && orderItems.Keys == orders.Keys
    && forall id :: id in orders ==> orders[id].id == id && Consistent(orders[id], orderItems[id])
  }

  /** The insertion order lists every stored order exactly once. */
  ghost predicate InsertionLists(insertion: seq<OrderId>, orders: map<OrderId, Order>)
  {
    Distinct(insertion) && forall id :: id in insertion <==> id in orders
  }

  /** A receipt row belongs to a stored, paid order, and a paid order has a receipt row. */
  ghost predicate ReceiptsMatchPaid(orders: map<OrderId, Order>, receipts: seq<Receipt>)
  {
    && (forall k :: 0 <= k < |receipts| ==> receipts[k].orderId in orders && orders[receipts[k].orderId].paid)
    && (forall id :: id in orders && orders[id].paid ==> HasReceipt(receipts, id))
  }

  ghost predicate StoreInvariant(orders: map<OrderId, Order>, orderItems: map<OrderId, seq<OrderItem>>,
                                 receipts: seq<Receipt>, insertion: seq<OrderId>, receiptPerOrderUnique: bool)
  {
    && RowsConsistent(orders, orderItems)
    && InsertionLists(insertion, orders)
    && ReceiptsMatchPaid(orders, receipts)
    && (receiptPerOrderUnique ==> ReceiptsUnique(receipts))
  }

  /** Inserting a new PENDING order whose totals are those of its items keeps the invariant. */
  lemma CreateKeepsInvariant(orders: map<OrderId, Order>, orderItems: map<OrderId, seq<OrderItem>>,
                             receipts: seq<Receipt>, insertion: seq<OrderId>, unique: bool,
                             lines: seq<OrderItem>, id: OrderId)
    requires StoreInvariant(orders, orderItems, receipts, insertion, unique)
    requires id !in orders
    ensures StoreInvariant(orders[id := PendingOrder(id, LinesAmount(lines), LinesQuantity(lines))],
                           orderItems[id := lines], receipts, insertion + [id], unique)
  {
    var orders' := orders[id := PendingOrder(id, LinesAmount(lines), LinesQuantity(lines))];
    assert id !in insertion;
    assert ReceiptsMatchPaid(orders', receipts) by {
      forall i | i in orders' && orders'[i].paid ensures HasReceipt(receipts, i) {
        assert i != id;
      }
    }
  }

  /** Replacing an order's status keeps the invariant. */
  lemma StatusChangeKeepsInvariant(orders: map<OrderId, Order>, orderItems: map<OrderId, seq<OrderItem>>,
                                   receipts: seq<Receipt>, insertion: seq<OrderId>, unique: bool,
                                   id: OrderId, status: OrderStatus)
    requires StoreInvariant(orders, orderItems, receipts, insertion, unique)
    requires id in orders
    ensures StoreInvariant(orders[id := orders[id].(status := status)], orderItems, receipts, insertion, unique)
  {
  }

  /** Marking an order paid together with appending its receipt keeps the invariant,
      unless the store allows one receipt per order and the order already has one. */
  lemma PaidKeepsInvariant(orders: map<OrderId, Order>, orderItems: map<OrderId, seq<OrderItem>>,
                           receipts: seq<Receipt>, insertion: seq<OrderId>, unique: bool,
                           id: OrderId, receiptUrl: string, chargeId: string, now: Timestamp)
    requires StoreInvariant(orders, orderItems, receipts, insertion, unique)
    requires id in orders && !(unique && HasReceipt(receipts, id))
    ensures StoreInvariant(
      orders[id := orders[id].(paid := true, status := PAID, paidAt := Some(now), stripeChargeId := Some(chargeId))],
      orderItems, receipts + [Receipt(id, receiptUrl)], insertion, unique)
  {
    ReceiptAppended(receipts, Receipt(id, receiptUrl));
  }

  // ---------------------------------------------------------------------------------
  // The store
  // ---------------------------------------------------------------------------------

  class OrderStore {
    /** The order rows, by id. */
    var orders: map<OrderId, Order>
    /** The stored line items of each order. */
    var orderItems: map<OrderId, seq<OrderItem>>
    /** The receipt table. */
    var receipts: seq<Receipt>
    /** Order ids in insertion order. */
    var insertion: seq<OrderId>
    /** Number of write statements the store has executed (each one would refresh the
        row's update timestamp). */
    var writes: nat
    /** Whether the store refuses a second receipt row for the same order. */
    const receiptPerOrderUnique: bool

    ghost predicate Valid()
      reads this
    {
      StoreInvariant(orders, orderItems, receipts, insertion, receiptPerOrderUnique)
    }

    /** The ids of the stored orders that pass the filter. */
    ghost function MatchingIds(status: Option<OrderStatus>): set<OrderId>
      reads this
    {
      set id | id in orders && Matches(orders[id], status)
    }

    constructor (receiptPerOrderUnique: bool)
      ensures Valid()
      ensures this.receiptPerOrderUnique == receiptPerOrderUnique
      ensures orders == map[] && orderItems == map[] && receipts == [] && insertion == [] && writes == 0
    {
      this.receiptPerOrderUnique := receiptPerOrderUnique;
      orders, orderItems, receipts, insertion, writes := map[], map[], [], [], 0;
    }

    /** `create`: price every requested item from the validation reply, store the order and
        its line items in one write, and return the order with product names joined in.
        `newId` is the identifier the store generates for the new row. */
    method Create(items: seq<ItemRequest>, products: seq<Product>, newId: OrderId)
      returns (r: Result<OrderWithProducts, Error>)
      requires Valid()
      modifies this
      ensures Valid()
      ensures !AllFound(items, products) ==> r == Err(ProductLookupFailed)
      ensures AllFound(items, products) && newId in old(orders) ==> r == Err(PersistenceFailed)
      ensures r.Err? ==>
        && orders == old(orders) && orderItems == old(orderItems) && receipts == old(receipts)
        && insertion == old(insertion) && writes == old(writes)
      ensures r.Ok? <==> AllFound(items, products) && newId !in old(orders)
      ensures r.Ok? ==>
        var lines := Snapshot(items, products);
        && r.value.order == PendingOrder(newId, LinesAmount(lines), LinesQuantity(lines))
        && TotalAmount(items, products) == Some(r.value.order.totalAmount)
        && r.value.order.totalItems == TotalItems(items)
        && NameItems(lines, products) == Some(r.value.items)
        && orders == old(orders)[newId := r.value.order]
        && orderItems == old(orderItems)[newId := lines]
        && insertion == old(insertion) + [newId]
        && receipts == old(receipts) && writes == old(writes) + 1
    {
      var amount := TotalAmount(items, products);
      if amount.None? {
        return Err(ProductLookupFailed);
      }
      var count := TotalItems(items);
      if newId in orders {
        return Err(PersistenceFailed);
      }
      var lines := Snapshot(items, products);
      SnapshotAmount(items, products);
      SnapshotQuantity(items, products);
      var order := PendingOrder(newId, amount.value, count);
      CreateKeepsInvariant(orders, orderItems, receipts, insertion, receiptPerOrderUnique, lines, newId);
      orders := orders[newId := order];
      orderItems := orderItems[newId := lines];
      insertion := insertion + [newId];
      writes := writes + 1;
      SnapshotNamed(items, products);
      r := Ok(OrderWithProducts(order, NameItems(lines, products).value));
    }

    /** `findAll`: count the orders passing the filter and return the requested page of
        them, in insertion order. */
    method FindAll(page: nat, limit: nat, status: Option<OrderStatus>) returns (r: OrderPage)
      requires Valid() && page >= 1 && limit >= 1
      ensures r.meta.total == |MatchingIds(status)|
      ensures status.None? ==> r.meta.total == |orders|
      ensures r.meta.page == page && r.meta.lastPage == LastPage(r.meta.total, limit)
      ensures |r.data| <= limit
      ensures r.data == Page(Listed(insertion, orders, status), page, limit)
      ensures forall k :: 0 <= k < |r.data| ==> Matches(r.data[k], status) && r.data[k] in orders.Values
    {
      var rows := Listed(insertion, orders, status);
      ListedCount(insertion, orders, status);
      MatchingInAll(insertion, orders, status);
      var data := Page(rows, page, limit);
      PageWithin(rows, page, limit);
      r := OrderPage(data, PageMeta(|rows|, page, LastPage(|rows|, limit)));
    }

    /** `findOne`: the order with its stored items, named from the validation reply for
        their product ids. */
    method FindOne(id: OrderId, products: seq<Product>) returns (r: Result<OrderWithProducts, Error>)
      requires Valid()
      ensures id !in orders ==> r == Err(OrderNotFound(id))
      ensures id in orders && NameItems(orderItems[id], products).None? ==> r == Err(ProductLookupFailed)
      ensures r.Ok? <==> id in orders && NameItems(orderItems[id], products).Some?
      ensures r.Ok? ==> id in orders && r.value.order == orders[id]
      ensures r.Ok? ==> NameItems(orderItems[id], products) == Some(r.value.items)
      ensures r.Ok? ==> NamedAmount(r.value.items) == r.value.order.totalAmount
    {
      if id !in orders {
        return Err(OrderNotFound(id));
      }
      var named := NameItems(orderItems[id], products);
      if named.None? {
        return Err(ProductLookupFailed);
      }
      NamedAmountPreserved(orderItems[id], products);
      r := Ok(OrderWithProducts(orders[id], named.value));
    }

    /** `changeOrderStatus`, with the existence check first: a missing order is reported
        as not found; the current status is returned without a write; any other status
        replaces the current one and nothing else. */
    method ChangeOrderStatus(id: OrderId, status: OrderStatus) returns (r: Result<Order, Error>)
      requires Valid()
      modifies this
      ensures Valid()
      ensures id !in old(orders) ==> r == Err(OrderNotFound(id))
      ensures id in old(orders) && old(orders)[id].status == status ==>
        r == Ok(old(orders)[id]) && orders == old(orders) && writes == old(writes)
      ensures id in old(orders) && old(orders)[id].status != status ==>
        && r == Ok(old(orders)[id].(status := status))
        && orders == old(orders)[id := r.value] && writes == old(writes) + 1
      ensures r.Err? ==> orders == old(orders) && writes == old(writes)
      ensures orderItems == old(orderItems) && receipts == old(receipts) && insertion == old(insertion)
    {
      if id !in orders {
        return Err(OrderNotFound(id));
      }
      var order := orders[id];
      if order.status == status {
        return Ok(order);
      }
      var updated := order.(status := status);
      StatusChangeKeepsInvariant(orders, orderItems, receipts, insertion, receiptPerOrderUnique, id, status);
      orders := orders[id := updated];
      writes := writes + 1;
      r := Ok(updated);
    }

    /** `paidOrder`, the payment-succeeded handler: in one write, mark the order paid with
        its charge id and payment time and attach a receipt row. `now` is the clock
        reading. A store that allows one receipt per order refuses a second one. */
    method PaidOrder(orderId: OrderId, receiptUrl: string, stripePaymentId: string, now: Timestamp)
      returns (r: Result<Order, Error>)
      requires Valid()
      modifies this
      ensures Valid()
      ensures orderId !in old(orders) ==> r == Err(OrderNotFound(orderId))
      ensures orderId in old(orders) && receiptPerOrderUnique && HasReceipt(old(receipts), orderId) ==>
        r == Err(PersistenceFailed)
      ensures r.Err? ==>
        && orders == old(orders) && orderItems == old(orderItems) && receipts == old(receipts)
        && insertion == old(insertion) && writes == old(writes)
      ensures r.Ok? <==> orderId in old(orders) && !(receiptPerOrderUnique && HasReceipt(old(receipts), orderId))
      ensures r.Ok? ==>
        && orderId in old(orders)
        && r.value == old(orders)[orderId].(paid := true, status := PAID, paidAt := Some(now),
                                            stripeChargeId := Some(stripePaymentId))
        && orders == old(orders)[orderId := r.value]
        && receipts == old(receipts) + [Receipt(orderId, receiptUrl)]
        && orderItems == old(orderItems) && insertion == old(insertion) && writes == old(writes) + 1
    {
      if orderId !in orders {
        return Err(OrderNotFound(orderId));
      }
      if receiptPerOrderUnique && HasReceipt(receipts, orderId) {
        return Err(PersistenceFailed);
      }
      var updated := orders[orderId].(paid := true, status := PAID, paidAt := Some(now),
                                      stripeChargeId := Some(stripePaymentId));
      PaidKeepsInvariant(orders, orderItems, receipts, insertion, receiptPerOrderUnique,
                         orderId, receiptUrl, stripePaymentId, now);
      orders := orders[orderId := updated];
      receipts := receipts + [Receipt(orderId, receiptUrl)];
      writes := writes + 1;
      r := Ok(updated);
    }
  }

  // ---------------------------------------------------------------------------------
  // `changeOrderStatus` in the order the source performs its steps
  // ---------------------------------------------------------------------------------

  /** What a status-change request ends in: the unchanged row, the updated row, the
      "not found" error, or a null dereference. */
  datatype StatusChangeOutcome = Returned(order: Order) | Updated(order: Order) | NotFoundRaised | NullDereference

  /** The source reads the status of the looked-up row before checking that there is a row. */
  function ChangeOrderStatusAsWritten(orders: map<OrderId, Order>, id: OrderId, status: OrderStatus): (r: StatusChangeOutcome)
    ensures r != NotFoundRaised
    ensures r == NullDereference <==> id !in orders
  {
    var found := if id in orders then Some(orders[id]) else None;
    if found.None? then NullDereference
    else if found.value.status == status then Returned(found.value)
    else if found.None? then NotFoundRaised
    else Updated(found.value.(status := status))
  }

  /** As written, the not-found error is never raised: a missing order ends in a null
      dereference. On a present order the steps agree with `OrderStore.ChangeOrderStatus`. */
  lemma AsWrittenMissingOrderCrashes(orders: map<OrderId, Order>, id: OrderId, status: OrderStatus)
    ensures ChangeOrderStatusAsWritten(orders, id, status) != NotFoundRaised
    ensures id !in orders ==> ChangeOrderStatusAsWritten(orders, id, status) == NullDereference
    ensures id in orders && orders[id].status == status ==>
      ChangeOrderStatusAsWritten(orders, id, status) == Returned(orders[id])
    ensures id in orders && orders[id].status != status ==>
      ChangeOrderStatusAsWritten(orders, id, status) == Updated(orders[id].(status := status))
  {
  }

  /** The concrete input: an empty store. */
  lemma AsWrittenEmptyStoreExample()
    ensures ChangeOrderStatusAsWritten(map[], "3f2b8c1e-0000-4000-8000-000000000000", PAID) == NullDereference
  {
  }
}
