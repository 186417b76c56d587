/** The values of the order domain and the pure calculations of order creation and
    retrieval: product lookup in the product-validation reply, the order totals, the
    line-item price snapshot, the name enrichment of returned items and the payload of
    the payment-session request. */
module OrderDomain {
  import opened Wrappers
  import opened OrderStatus

  /** A UUID as its text. */
  type OrderId = string
  type ProductId = int
  /** A point in time, as read from the clock by the caller. */
  type Timestamp = int

  /** One entry of the product-validation reply. Prices are integers (cents). */
  datatype Product = Product(id: ProductId, name: string, price: int)

  /** One requested line of a new order, as the create request carries it. */
  datatype ItemRequest = ItemRequest(productId: ProductId, quantity: nat)

  /** A stored line item: the product price is copied in at creation time. */
  datatype OrderItem = OrderItem(productId: ProductId, quantity: nat, price: int)

  /** A line item as returned to callers, with the product name joined in (not stored). */
  datatype NamedItem = NamedItem(productId: ProductId, quantity: nat, price: int, name: string)

  /** The scalar columns of an order row. */
  datatype Order = Order(
    id: OrderId,
    totalAmount: int,
    totalItems: nat,
    status: OrderStatus,
    paid: bool,
    paidAt: Option<Timestamp>,
    stripeChargeId: Option<string>)

  /** An order row together with its named line items, the shape `create` and `findOne` return. */
  datatype OrderWithProducts = OrderWithProducts(order: Order, items: seq<NamedItem>)

  /** A row of the receipt table, attached to an order by the payment-succeeded handler. */
  datatype Receipt = Receipt(orderId: OrderId, receiptUrl: string)

  /** The domain errors: an order id with no row, a product id missing from the validation
      reply, and a write the store refused. */
  datatype Error = OrderNotFound(id: OrderId) | ProductLookupFailed | PersistenceFailed

  /** A freshly created order: PENDING, unpaid, no charge. */
  function PendingOrder(id: OrderId, totalAmount: int, totalItems: nat): (r: Order)
  {
    Order(id, totalAmount, totalItems, PENDING, false, None, None)
  }

  // ---------------------------------------------------------------------------------
  // Looking a product up in the validation reply (the first entry with the id)
  // ---------------------------------------------------------------------------------

  /** The position of the first product of the reply with the given id, `|products|` when
      there is none. */
  function FirstIndex(products: seq<Product>, id: ProductId): (r: nat)
    ensures r <= |products|
    ensures forall j :: 0 <= j < r ==> products[j].id != id
    ensures r < |products| ==> products[r].id == id
  {
    if products == [] then 0
    else if products[0].id == id then 0
    else
      assert forall j :: 1 <= j < |products| ==> products[1..][j - 1] == products[j];
      1 + FirstIndex(products[1..], id)
  }

  /** The first product of the reply with the given id, or None when the reply has none. */
  function Find(products: seq<Product>, id: ProductId): (r: Option<Product>)
    ensures r.None? <==> forall k :: 0 <= k < |products| ==> products[k].id != id
    ensures r.Some? ==> r.value.id == id && r.value in products
    ensures r.Some? ==> r.value == products[FirstIndex(products, id)]
  {
    var i := FirstIndex(products, id);
    if i < |products| then Some(products[i]) else None
  }

  /** Every requested product id has an entry in the reply. */
  predicate AllFound(items: seq<ItemRequest>, products: seq<Product>)
  {
    forall k :: 0 <= k < |items| ==> Find(products, items[k].productId).Some?
  }

  // ---------------------------------------------------------------------------------
  // Totals of `create` (the two `reduce` expressions)
  // ---------------------------------------------------------------------------------

  /** Sum of quantity times looked-up price over the requested items; the lookup of a
      missing product dereferences nothing, so the whole sum fails (None). */
  function TotalAmount(items: seq<ItemRequest>, products: seq<Product>): (r: Option<int>)
    ensures r.Some? <==> AllFound(items, products)
  {
    if items == [] then Some(0)
    else
      assert forall k :: 1 <= k < |items| ==> items[1..][k - 1] == items[k];
      match Find(products, items[0].productId)
      case None => None
      case Some(p) =>
        match TotalAmount(items[1..], products)
        case None =>
          assert !AllFound(items[1..], products);
          None
        case Some(rest) => Some(items[0].quantity * p.price + rest)
  }

  /** Sum of the requested quantities. */
  function TotalItems(items: seq<ItemRequest>): (r: nat)
    ensures (forall k :: 0 <= k < |items| ==> items[k].quantity > 0) ==> r >= |items|
  {
    if items == [] then 0
    else
      assert forall k :: 1 <= k < |items| ==> items[1..][k - 1] == items[k];
      items[0].quantity + TotalItems(items[1..])
  }

  // ---------------------------------------------------------------------------------
  // The stored line items (`createMany` data)
  // ---------------------------------------------------------------------------------

  /** One stored item per requested item, in request order, with the reply's price. */
  function Snapshot(items: seq<ItemRequest>, products: seq<Product>): (r: seq<OrderItem>)
    requires AllFound(items, products)
    ensures |r| == |items|
    ensures forall k :: 0 <= k < |items| ==>
      r[k].productId == items[k].productId && r[k].quantity == items[k].quantity &&
      r[k].price == Find(products, items[k].productId).value.price
  {
    if items == [] then []
    else
      assert forall k :: 1 <= k < |items| ==> items[1..][k - 1] == items[k];
      var p := Find(products, items[0].productId).value;
      [OrderItem(items[0].productId, items[0].quantity, p.price)] + Snapshot(items[1..], products)
  }

  /** Sum of quantity times the stored price. */
  function LinesAmount(lines: seq<OrderItem>): (r: int)
  {
    if lines == [] then 0 else lines[0].quantity * lines[0].price + LinesAmount(lines[1..])
  }

  /** Sum of the stored quantities. */
  function LinesQuantity(lines: seq<OrderItem>): (r: nat)
  {
    if lines == [] then 0 else lines[0].quantity + LinesQuantity(lines[1..])
  }

  /** The amount computed from the request is the amount of the stored items. */
  lemma {:induction false} SnapshotAmount(items: seq<ItemRequest>, products: seq<Product>)
    requires AllFound(items, products)
    ensures TotalAmount(items, products) == Some(LinesAmount(Snapshot(items, products)))
  {
    if items != [] {
      var t := items[1..];
      assert AllFound(t, products) by {
        forall k | 0 <= k < |t| ensures Find(products, t[k].productId).Some? {
          assert t[k] == items[k + 1];
        }
      }
      SnapshotAmount(t, products);
      assert Snapshot(items, products)[1..] == Snapshot(t, products);
    }
  }

  /** The item count computed from the request is the count of the stored items. */
  lemma {:induction false} SnapshotQuantity(items: seq<ItemRequest>, products: seq<Product>)
    requires AllFound(items, products)
    ensures TotalItems(items) == LinesQuantity(Snapshot(items, products))
  {
    if items != [] {
      var t := items[1..];
      assert AllFound(t, products) by {
        forall k | 0 <= k < |t| ensures Find(products, t[k].productId).Some? {
          assert t[k] == items[k + 1];
        }
      }
      SnapshotQuantity(t, products);
      assert Snapshot(items, products)[1..] == Snapshot(t, products);
    }
  }

  /** With non-negative prices the order total is non-negative, and with positive ones
      and at least one item it is positive. */
  lemma {:induction false} TotalAmountSign(lines: seq<OrderItem>)
    requires forall k :: 0 <= k < |lines| ==> lines[k].price >= 0
    ensures LinesAmount(lines) >= 0
    ensures (forall k :: 0 <= k < |lines| ==> lines[k].price > 0 && lines[k].quantity > 0) && lines != []
      ==> LinesAmount(lines) > 0
  {
    if lines != [] {
      assert forall k :: 1 <= k < |lines| ==> lines[1..][k - 1] == lines[k];
      TotalAmountSign(lines[1..]);
    }
  }

  /** The worked example: two of product 1 at 10 and one of product 2 at 5. */
  lemma CreateExample()
    ensures var items := [ItemRequest(1, 2), ItemRequest(2, 1)];
            var products := [Product(1, "A", 10), Product(2, "B", 5)];
            TotalAmount(items, products) == Some(25) && TotalItems(items) == 3
  {
    var items := [ItemRequest(1, 2), ItemRequest(2, 1)];
    var products := [Product(1, "A", 10), Product(2, "B", 5)];
    assert Find(products, 1) == Some(Product(1, "A", 10));
    assert Find(products, 2) == Some(Product(2, "B", 5));
    assert items[1..] == [ItemRequest(2, 1)];
    assert items[1..][1..] == [];
  }

  // ---------------------------------------------------------------------------------
  // Name enrichment of returned items (each stored item plus its product's name)
  // ---------------------------------------------------------------------------------

  /** Each item keeps its stored fields and gains the name of the product with its id;
      a product missing from the reply makes the whole enrichment fail. */
  function NameItems(lines: seq<OrderItem>, products: seq<Product>): (r: Option<seq<NamedItem>>)
    ensures r.Some? <==> forall k :: 0 <= k < |lines| ==> Find(products, lines[k].productId).Some?
    ensures r.Some? ==> |r.value| == |lines|
    ensures r.Some? ==> forall k :: 0 <= k < |lines| ==>
      r.value[k] == NamedItem(lines[k].productId, lines[k].quantity, lines[k].price,
                              Find(products, lines[k].productId).value.name)
  {
    if lines == [] then Some([])
    else
      assert forall k :: 1 <= k < |lines| ==> lines[1..][k - 1] == lines[k];
      match Find(products, lines[0].productId)
      case None => None
      case Some(p) =>
        match NameItems(lines[1..], products)
        case None => None
        case Some(rest) => Some([NamedItem(lines[0].productId, lines[0].quantity, lines[0].price, p.name)] + rest)
  }

  /** The items stored by a creation can always be named from the same reply. */
  lemma SnapshotNamed(items: seq<ItemRequest>, products: seq<Product>)
    requires AllFound(items, products)
    ensures NameItems(Snapshot(items, products), products).Some?
  {
    var lines := Snapshot(items, products);
    forall k | 0 <= k < |lines| ensures Find(products, lines[k].productId).Some? {
      assert lines[k].productId == items[k].productId;
    }
  }

  /** Sum of quantity times price over named items. */
  function NamedAmount(named: seq<NamedItem>): (r: int)
  {
    if named == [] then 0 else named[0].quantity * named[0].price + NamedAmount(named[1..])
  }

  /** Joining names in changes no amount. */
  lemma {:induction false} NamedAmountPreserved(lines: seq<OrderItem>, products: seq<Product>)
    requires NameItems(lines, products).Some?
    ensures NamedAmount(NameItems(lines, products).value) == LinesAmount(lines)
  {
    if lines != [] {
      assert forall k :: 1 <= k < |lines| ==> lines[1..][k - 1] == lines[k];
      NamedAmountPreserved(lines[1..], products);
      assert NameItems(lines, products).value[1..] == NameItems(lines[1..], products).value;
    }
  }

  // ---------------------------------------------------------------------------------
  // The payload of the payment-session request (`createPaymentSession`)
  // ---------------------------------------------------------------------------------

  datatype PaymentLine = PaymentLine(name: string, price: int, quantity: nat)
  datatype PaymentSessionRequest = PaymentSessionRequest(orderId: OrderId, currency: string, items: seq<PaymentLine>)

  /** The fixed currency code of every payment session. */
  const PaymentCurrency: string := "usd"

  /** One payment line per named item, in order, carrying its name, price and quantity. */
  function PaymentLines(named: seq<NamedItem>): (r: seq<PaymentLine>)
    ensures |r| == |named|
    ensures forall k :: 0 <= k < |named| ==>
      r[k].name == named[k].name && r[k].price == named[k].price && r[k].quantity == named[k].quantity
  {
    if named == [] then []
    else
      assert forall k :: 1 <= k < |named| ==> named[1..][k - 1] == named[k];
      [PaymentLine(named[0].name, named[0].price, named[0].quantity)] + PaymentLines(named[1..])
  }

  /** The request sent for an order returned by `create`. */
  function PaymentSessionPayload(o: OrderWithProducts): (r: PaymentSessionRequest)
    ensures r.orderId == o.order.id && r.currency == PaymentCurrency
    ensures |r.items| == |o.items|
    ensures forall k :: 0 <= k < |o.items| ==>
      r.items[k] == PaymentLine(o.items[k].name, o.items[k].price, o.items[k].quantity)
  {
    PaymentSessionRequest(o.order.id, PaymentCurrency, PaymentLines(o.items))
  }

  /** What the payment provider would charge for the lines of a session. */
  function PaymentTotal(lines: seq<PaymentLine>): (r: int)
  {
    if lines == [] then 0 else lines[0].quantity * lines[0].price + PaymentTotal(lines[1..])
  }

  lemma {:induction false} PaymentLinesTotal(named: seq<NamedItem>)
    ensures PaymentTotal(PaymentLines(named)) == NamedAmount(named)
  {
    if named != [] {
      PaymentLinesTotal(named[1..]);
      assert PaymentLines(named)[1..] == PaymentLines(named[1..]);
    }
  }

  /** The payment session of an order whose total is that of its stored items, named from
      a reply, charges exactly the order's total. */
  lemma PaymentChargesOrderTotal(o: OrderWithProducts, lines: seq<OrderItem>, products: seq<Product>)
    requires NameItems(lines, products) == Some(o.items)
    requires o.order.totalAmount == LinesAmount(lines)
    ensures PaymentTotal(PaymentSessionPayload(o).items) == o.order.totalAmount
    ensures PaymentSessionPayload(o).orderId == o.order.id
  {
    PaymentLinesTotal(o.items);
    NamedAmountPreserved(lines, products);
  }

  // ---------------------------------------------------------------------------------
  // Row invariants
  // ---------------------------------------------------------------------------------

  /** What holds of every stored order: its totals are those of its stored items, and
      a paid order carries its payment time and charge id. */
  predicate Consistent(o: Order, lines: seq<OrderItem>)
  {
    && o.totalAmount == LinesAmount(lines)
    && o.totalItems == LinesQuantity(lines)
    && (o.paid ==> o.paidAt.Some? && o.stripeChargeId.Some?)
  }
}
