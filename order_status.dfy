/** The order lifecycle status (the Prisma enum `OrderStatus`) and its wire strings. */
module OrderStatus {
  import opened Wrappers

  datatype OrderStatus = PENDING | DELIVERED | PAID | CANCELLED

  /** The list of accepted values, in declaration order. */
  const OrderStatusList: seq<OrderStatus> := [PENDING, DELIVERED, PAID, CANCELLED]

  /** The exact, case-sensitive string a status travels as on the message bus. */
  function WireName(s: OrderStatus): (r: string)
  {
    match s
    case PENDING => "PENDING"
    case DELIVERED => "DELIVERED"
    case PAID => "PAID"
    case CANCELLED => "CANCELLED"
  }

  /** The enum check a request DTO applies to its `status` field: a string is accepted
      exactly when it is the wire name of one of the values in `OrderStatusList`. */
  function ParseStatus(w: string): (r: Option<OrderStatus>)
    ensures r.Some? <==> exists k :: 0 <= k < |OrderStatusList| && WireName(OrderStatusList[k]) == w
    ensures r.Some? ==> WireName(r.value) == w && r.value in OrderStatusList
  {
    if w == "PENDING" then assert WireName(OrderStatusList[0]) == w; Some(PENDING)
    else if w == "DELIVERED" then assert WireName(OrderStatusList[1]) == w; Some(DELIVERED)
    else if w == "PAID" then assert WireName(OrderStatusList[2]) == w; Some(PAID)
    else if w == "CANCELLED" then assert WireName(OrderStatusList[3]) == w; Some(CANCELLED)
    else None
  }

  /** Every status is listed, exactly once. */
  lemma StatusListComplete(s: OrderStatus)
    ensures s in OrderStatusList
    ensures forall j, k :: 0 <= j < k < |OrderStatusList| ==> OrderStatusList[j] != OrderStatusList[k]
  {
  }

  /** Sending a status and validating it on arrival gives it back. */
  lemma ParseWireName(s: OrderStatus)
    ensures ParseStatus(WireName(s)) == Some(s)
  {
  }
}
