/**
 * What the order workflow of `OrderServiceImpl` computes, as functions of the tables and
 * the request: the cart-line search, the running totals, the sub-order rows, the stock
 * after the decrements, the selective status update and the close sweep. The service
 * class in module OrderService is proved against these; the lemmas state what the
 * workflow promises about them.
 */
module OrderSpec {
  import opened Wrappers
  import opened JavaInt
  import opened JavaString
  import opened Pojo

  /** The postage of every order: delivery is free. */
  const POST_AMOUNT: Int32 := 0

  // ---------------------------------------------------------------------------
  // Cart lines

  /** The position of the first cart line for `specId`, or |cart| when there is none. */
  function FirstLineIndex(cart: seq<CartLine>, specId: string): (k: nat)
    ensures k <= |cart|
    ensures forall j :: 0 <= j < k ==> cart[j].specId != specId
    ensures k < |cart| ==> cart[k].specId == specId
  {
    if cart == [] then 0
    else if cart[0].specId == specId then 0
    else 1 + FirstLineIndex(cart[1..], specId)
  }

  predicate InCart(cart: seq<CartLine>, specId: string)
  {
    FirstLineIndex(cart, specId) < |cart|
  }

  /** The cart line an order takes the quantity of `specId` from. */
  function LineFor(cart: seq<CartLine>, specId: string): CartLine
    requires InCart(cart, specId)
  {
    cart[FirstLineIndex(cart, specId)]
  }

  // ---------------------------------------------------------------------------
  // What createOrder needs of its inputs

  /** Every requested spec has a cart line. */
  predicate AllInCart(cart: seq<CartLine>, reqs: seq<string>)
  {
    forall k :: 0 <= k < |reqs| ==> InCart(cart, reqs[k])
  }

  /** Every requested spec has a cart line and a spec row. */
  predicate Priced(cart: seq<CartLine>, specs: map<string, ItemsSpec>, reqs: seq<string>)
  {
    AllInCart(cart, reqs) && forall k :: 0 <= k < |reqs| ==> reqs[k] in specs
  }

  /** Every lookup createOrder makes for the requested specs finds its row. */
  predicate Resolvable(cart: seq<CartLine>, specs: map<string, ItemsSpec>, items: map<string, Item>,
                       reqs: seq<string>)
  {
    Priced(cart, specs, reqs) && forall k :: 0 <= k < |reqs| ==> specs[reqs[k]].itemId in items
  }

  /**
   * Ids from the id generator for an order of `n` sub-orders: pairwise distinct, the first
   * (the order's) not yet a key of orders or order_status, the others not yet sub-order ids.
   */
  predicate FreshIds(freshIds: seq<string>, n: nat, orderKeys: set<string>, statusKeys: set<string>,
                     rows: seq<OrderItem>)
  {
    && |freshIds| > n
    && (forall i, j :: 0 <= i < j < |freshIds| ==> freshIds[i] != freshIds[j])
    && freshIds[0] !in orderKeys && freshIds[0] !in statusKeys
    && (forall k, r :: 1 <= k < |freshIds| && 0 <= r < |rows| ==> rows[r].id != freshIds[k])
  }

  // ---------------------------------------------------------------------------
  // What createOrder computes

  /** The exact sum of normal price times quantity over the first `n` requested specs, duplicates included. */
  function NormalSum(cart: seq<CartLine>, specs: map<string, ItemsSpec>, reqs: seq<string>, n: nat): int
    requires n <= |reqs| && Priced(cart, specs, reqs)
  {
    if n == 0 then 0
    else NormalSum(cart, specs, reqs, n - 1) + specs[reqs[n - 1]].priceNormal * LineFor(cart, reqs[n - 1]).buyCounts
  }

  /** The exact sum of discount price times quantity over the first `n` requested specs, duplicates included. */
  function DiscountSum(cart: seq<CartLine>, specs: map<string, ItemsSpec>, reqs: seq<string>, n: nat): int
    requires n <= |reqs| && Priced(cart, specs, reqs)
  {
    if n == 0 then 0
    else DiscountSum(cart, specs, reqs, n - 1) + specs[reqs[n - 1]].priceDiscount * LineFor(cart, reqs[n - 1]).buyCounts
  }

  /** The quantity of `specId` over its occurrences among the first `n` requested specs. */
  function CountSum(cart: seq<CartLine>, reqs: seq<string>, n: nat, specId: string): int
    requires n <= |reqs| && AllInCart(cart, reqs)
  {
    if n == 0 then 0
    else CountSum(cart, reqs, n - 1, specId) + (if reqs[n - 1] == specId then LineFor(cart, reqs[n - 1]).buyCounts else 0)
  }

  /** How often `specId` occurs among the first `n` requested specs. */
  function Occurrences(reqs: seq<string>, n: nat, specId: string): nat
    requires n <= |reqs|
  {
    if n == 0 then 0 else Occurrences(reqs, n - 1, specId) + (if reqs[n - 1] == specId then 1 else 0)
  }

  /**
   * The spec table once the first `n` requested specs have been bought: each spec's stock
   * is down by its quantity summed over its occurrences; nothing else changes.
   */
  function StockAfter(cart: seq<CartLine>, specs: map<string, ItemsSpec>, reqs: seq<string>, n: nat)
    : map<string, ItemsSpec>
    requires n <= |reqs| && AllInCart(cart, reqs)
  {
    map id | id in specs :: specs[id].(stock := specs[id].stock - CountSum(cart, reqs, n, id))
  }

  /** The cart lines for the first `n` requested specs, in request order: the lines the order takes. */
  function CartLines(cart: seq<CartLine>, reqs: seq<string>, n: nat): (r: seq<CartLine>)
    requires n <= |reqs| && AllInCart(cart, reqs)
    ensures |r| == n
  {
    if n == 0 then [] else CartLines(cart, reqs, n - 1) + [LineFor(cart, reqs[n - 1])]
  }

  /** The main image of an item (`queryItemMainImgById`), null when it has none. */
  function MainImage(images: map<string, string>, itemId: string): Option<string>
  {
    if itemId in images then Some(images[itemId]) else None
  }

  /** The receiver address, composed of the four address fields. */
  function ReceiverAddress(a: UserAddress): string
  {
    a.province + " " + a.city + " " + a.district + " " + a.detail
  }

  /** The order row createOrder inserts. */
  function NewOrder(orderId: string, submit: SubmitOrder, address: UserAddress,
                    totalAmount: Int32, realPayAmount: Int32, now: Time): Order
  {
    Order(orderId, submit.userId, address.receiver, address.mobile, ReceiverAddress(address),
          totalAmount, realPayAmount, POST_AMOUNT, submit.payMethod, submit.leftMsg, NO, NO, now, now)
  }

  /** The sub-order row createOrder inserts for one requested spec, carrying the given price. */
  function SubOrder(orderId: string, subOrderId: string, specId: string, cart: seq<CartLine>,
                    specs: map<string, ItemsSpec>, items: map<string, Item>,
                    images: map<string, string>, price: Int32): OrderItem
    requires InCart(cart, specId) && specId in specs && specs[specId].itemId in items
  {
    var spec := specs[specId];
    OrderItem(subOrderId, orderId, spec.itemId, items[spec.itemId].itemName,
              MainImage(images, spec.itemId), specId, spec.name, LineFor(cart, specId).buyCounts, price)
  }

  /**
   * The sub-order rows for the first `n` requested specs, in request order; the k-th
   * (from 1) carries the k+1-th fresh id and, as its price, the running `int` total of
   * the discount prices of rows 1..k.
   */
  function SubOrders(orderId: string, freshIds: seq<string>, cart: seq<CartLine>,
                     specs: map<string, ItemsSpec>, items: map<string, Item>,
                     images: map<string, string>, reqs: seq<string>, n: nat): (r: seq<OrderItem>)
    requires n <= |reqs| && n < |freshIds| && Resolvable(cart, specs, items, reqs)
    ensures |r| == n
  {
    if n == 0 then []
    else
      SubOrders(orderId, freshIds, cart, specs, items, images, reqs, n - 1)
      + [SubOrder(orderId, freshIds[n], reqs[n - 1], cart, specs, items, images,
                  Wrap(DiscountSum(cart, specs, reqs, n)))]
  }

  /** The status row createOrder inserts. */
  function WaitPayStatus(orderId: string, now: Time): OrderStatus
  {
    OrderStatus(orderId, WAIT_PAY, now, None, None)
  }

  /** Every row names an order in `orderKeys`. */
  predicate ItemsBelong(rows: seq<OrderItem>, orderKeys: set<string>)
  {
    forall k :: 0 <= k < |rows| ==> rows[k].orderId in orderKeys
  }

  /** No two rows share a primary key. */
  predicate UniqueIds(rows: seq<OrderItem>)
  {
    forall i, j :: 0 <= i < j < |rows| ==> rows[i].id != rows[j].id
  }

  /** The primary keys: each keyed row carries its key, and sub-order ids are unique. */
  predicate KeysValid(orders: map<string, Order>, status: map<string, OrderStatus>,
                      specs: map<string, ItemsSpec>, rows: seq<OrderItem>)
  {
    && (forall id :: id in orders ==> orders[id].id == id)
    && (forall id :: id in status ==> status[id].orderId == id)
    && (forall id :: id in specs ==> specs[id].id == id)
    && UniqueIds(rows)
  }

  /** Every order has exactly one status row and every sub-order belongs to an order. */
  predicate TablesConsistent(orders: map<string, Order>, status: map<string, OrderStatus>, rows: seq<OrderItem>)
  {
    orders.Keys == status.Keys && ItemsBelong(rows, orders.Keys)
  }

  // ---------------------------------------------------------------------------
  // Status updates and the close sweep

  /** A row after `updateByPrimaryKeySelective(p)`: the non-null fields of `p` overwrite it. */
  function ApplySelective(row: OrderStatus, p: StatusPatch): OrderStatus
  {
    OrderStatus(row.orderId,
                p.orderStatus.GetOr(row.orderStatus),
                p.createdTime.GetOr(row.createdTime),
                if p.payTime.Some? then p.payTime else row.payTime,
                if p.closeTime.Some? then p.closeTime else row.closeTime)
  }

  /** A status row after it is closed at `now`. */
  function Closed(row: OrderStatus, now: Time): OrderStatus
  {
    row.(orderStatus := CLOSE, closeTime := Some(now))
  }

  /** A row the sweep closes: unpaid for at least a day, under a non-blank order id. */
  predicate Stale(row: OrderStatus, now: Time, daysBetween: (Time, Time) -> int)
  {
    row.orderStatus == WAIT_PAY && daysBetween(row.createdTime, now) >= 1 && !IsBlank(row.orderId)
  }

  /** The status table after one sweep at `now`. */
  function Swept(t: map<string, OrderStatus>, now: Time, daysBetween: (Time, Time) -> int)
    : map<string, OrderStatus>
  {
    map id | id in t :: if Stale(t[id], now, daysBetween) then Closed(t[id], now) else t[id]
  }
}
