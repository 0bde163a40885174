/**
 * `OrderServiceImpl`: the order workflow over the tables it reads and writes. The
 * orders, order_items and order_status tables stand for the three mappers; the spec,
 * item and image tables for the item service; the address table for the address service.
 */
module OrderService {
  import opened Wrappers
  import opened JavaInt
  import opened JavaString
  import opened Pojo
  import opened OrderSpec
  import opened OrderProperties

  class OrderServiceImpl {
    /** orders, keyed by order id. */
    var orders: map<string, Order>
    /** order_items, in insertion order. */
    var orderItems: seq<OrderItem>
    /** order_status, keyed by order id. */
    var orderStatus: map<string, OrderStatus>
    /** items_spec, keyed by spec id. */
    var specs: map<string, ItemsSpec>
    /** items, keyed by item id. */
    var items: map<string, Item>
    /** The main image of each item, keyed by item id. */
    var itemImages: map<string, string>
    /** user_address, keyed by (user id, address id). */
    var addresses: map<(string, string), UserAddress>

    /** The primary keys: each keyed row carries its key, and sub-order ids are unique. */
    ghost predicate Valid()
      reads this
    {
      KeysValid(orders, orderStatus, specs, orderItems)
    }

    /** Every order has exactly one status row and every sub-order belongs to an order. */
    ghost predicate Consistent()
      reads this
    {
      TablesConsistent(orders, orderStatus, orderItems)
    }

    /** A service over empty tables. */
    constructor ()
      ensures Valid() && Consistent()
      ensures orders == map[] && orderItems == [] && orderStatus == map[]
      ensures specs == map[] && items == map[] && itemImages == map[] && addresses == map[]
    {
      orders, orderItems, orderStatus := map[], [], map[];
      specs, items, itemImages, addresses := map[], map[], map[], map[];
    }

    /** The first cart line for `specId`, or null when the cart has none. */
    method GetBuyCountsFromShopcart(cart: seq<CartLine>, specId: string) returns (line: Option<CartLine>)
      ensures line.None? <==> forall j :: 0 <= j < |cart| ==> cart[j].specId != specId
      ensures line.Some? ==> line.value.specId == specId && line.value == cart[FirstLineIndex(cart, specId)]
    {
      var j := 0;
      while j < |cart|
        invariant 0 <= j <= |cart|
        invariant forall i :: 0 <= i < j ==> cart[i].specId != specId
      {
        if cart[j].specId == specId {
          return Some(cart[j]);
        }
        j := j + 1;
      }
      return None;
    }

    /**
     * One pass of createOrder's loop for the spec `itemSpecId`: takes the quantity from the
     * first matching cart line, adds the spec's normal and discount prices times that
     * quantity to the two running `int` totals, saves a sub-order carrying the new
     * real-pay total as its price, and lowers the spec's stock by the quantity.
     */
    method SaveSubOrder(cart: seq<CartLine>, orderId: string, subOrderId: string, itemSpecId: string,
                        totalAmount: Int32, realPayAmount: Int32)
      returns (cartItem: CartLine, newTotalAmount: Int32, newRealPayAmount: Int32)
      requires InCart(cart, itemSpecId) && itemSpecId in specs && specs[itemSpecId].itemId in items
      modifies this`orderItems, this`specs
      ensures cartItem == LineFor(cart, itemSpecId)
      ensures newTotalAmount == Add(totalAmount, Mul(old(specs)[itemSpecId].priceNormal, cartItem.buyCounts))
      ensures newRealPayAmount == Add(realPayAmount, Mul(old(specs)[itemSpecId].priceDiscount, cartItem.buyCounts))
      ensures orderItems == old(orderItems) + [SubOrder(orderId, subOrderId, itemSpecId, cart, old(specs),
                                                        items, itemImages, newRealPayAmount)]
      ensures specs == old(specs)[itemSpecId := old(specs)[itemSpecId].(stock := old(specs)[itemSpecId].stock
                                                                                 - cartItem.buyCounts)]
    {
      var found := GetBuyCountsFromShopcart(cart, itemSpecId);
      cartItem := found.value;
      var buyCounts := cartItem.buyCounts;

      var itemSpec := specs[itemSpecId];
      newTotalAmount := Add(totalAmount, Mul(itemSpec.priceNormal, buyCounts));
      newRealPayAmount := Add(realPayAmount, Mul(itemSpec.priceDiscount, buyCounts));

      var itemId := itemSpec.itemId;
      var item := items[itemId];
      var imgUrl := MainImage(itemImages, itemId);
      var subOrderItem := OrderItem(subOrderId, orderId, itemId, item.itemName, imgUrl,
                                    itemSpecId, itemSpec.name, buyCounts, newRealPayAmount);
      orderItems := orderItems + [subOrderItem];

      specs := specs[itemSpecId := itemSpec.(stock := itemSpec.stock - buyCounts)];
    }

    /**
     * The loop of createOrder over the requested specs, in request order: one pass of
     * SaveSubOrder each, the k-th sub-order taking the (k+1)-th fresh id.
     */
    method SaveSubOrders(cart: seq<CartLine>, orderId: string, itemSpecIdArr: seq<string>,
                         freshIds: seq<string>)
      returns (totalAmount: Int32, realPayAmount: Int32, toBeRemoved: seq<CartLine>)
      requires Resolvable(cart, specs, items, itemSpecIdArr)
      requires |itemSpecIdArr| < |freshIds|
      modifies this`orderItems, this`specs
      ensures totalAmount == Wrap(NormalSum(cart, old(specs), itemSpecIdArr, |itemSpecIdArr|))
      ensures realPayAmount == Wrap(DiscountSum(cart, old(specs), itemSpecIdArr, |itemSpecIdArr|))
      ensures orderItems == old(orderItems)
                            + SubOrders(orderId, freshIds, cart, old(specs), items, itemImages,
                                        itemSpecIdArr, |itemSpecIdArr|)
      ensures specs == StockAfter(cart, old(specs), itemSpecIdArr, |itemSpecIdArr|)
      ensures toBeRemoved == CartLines(cart, itemSpecIdArr, |itemSpecIdArr|)
    {
      totalAmount, realPayAmount, toBeRemoved := 0, 0, [];
      ghost var specs0 := specs;
      ghost var rows0 := orderItems;
      var i := 0;
      while i < |itemSpecIdArr|
        invariant 0 <= i <= |itemSpecIdArr|
        invariant totalAmount == Wrap(NormalSum(cart, specs0, itemSpecIdArr, i))
        invariant realPayAmount == Wrap(DiscountSum(cart, specs0, itemSpecIdArr, i))
        invariant toBeRemoved == CartLines(cart, itemSpecIdArr, i)
        invariant orderItems == rows0 + SubOrders(orderId, freshIds, cart, specs0, items, itemImages, itemSpecIdArr, i)
        invariant specs == StockAfter(cart, specs0, itemSpecIdArr, i)
      {
        var itemSpecId := itemSpecIdArr[i];
        ghost var line := LineFor(cart, itemSpecId);
        ghost var t := specs;
        SaveStep(orderId, freshIds, cart, specs0, items, itemImages, itemSpecIdArr, i, t);
        NormalStep(cart, specs0, itemSpecIdArr, i, totalAmount, specs[itemSpecId].priceNormal, line.buyCounts);
        DiscountStep(cart, specs0, itemSpecIdArr, i, realPayAmount, specs[itemSpecId].priceDiscount, line.buyCounts);
        var cartItem;
        cartItem, totalAmount, realPayAmount
          := SaveSubOrder(cart, orderId, freshIds[i + 1], itemSpecId, totalAmount, realPayAmount);
        StockStepAt(cart, specs0, itemSpecIdArr, i, t, line.buyCounts, specs);
        assert orderItems == rows0 + (SubOrders(orderId, freshIds, cart, specs0, items, itemImages, itemSpecIdArr, i)
                                      + [orderItems[|orderItems| - 1]]);
        toBeRemoved := toBeRemoved + [cartItem];
        i := i + 1;
      }
    }

    /**
     * Creates an order for the specs listed in `submit.itemSpecIds`: one sub-order per
     * listed spec in list order, the stock of each listed spec lowered by the quantity
     * bought, one order row and one WAIT_PAY status row. `freshIds` are the ids the id
     * generator hands out, the order's first.
     */
    method CreateOrder(cart: seq<CartLine>, submit: SubmitOrder, freshIds: seq<string>, now: Time)
      returns (view: OrderView)
      requires Valid()
      requires (submit.userId, submit.addressId) in addresses
      requires Resolvable(cart, specs, items, Split(submit.itemSpecIds))
      requires FreshIds(freshIds, |Split(submit.itemSpecIds)|, orders.Keys, orderStatus.Keys, orderItems)
      modifies this`orders, this`orderItems, this`orderStatus, this`specs
      ensures Valid()
      ensures old(Consistent()) ==> Consistent()
      ensures var reqs := Split(submit.itemSpecIds);
              orders == old(orders)[freshIds[0] := NewOrder(freshIds[0], submit,
                addresses[(submit.userId, submit.addressId)],
                Wrap(NormalSum(cart, old(specs), reqs, |reqs|)),
                Wrap(DiscountSum(cart, old(specs), reqs, |reqs|)), now)]
      ensures orderStatus == old(orderStatus)[freshIds[0] := WaitPayStatus(freshIds[0], now)]
      ensures var reqs := Split(submit.itemSpecIds);
              orderItems == old(orderItems)
                            + SubOrders(freshIds[0], freshIds, cart, old(specs), items, itemImages, reqs, |reqs|)
      ensures var reqs := Split(submit.itemSpecIds);
              reqs != [] ==> orderItems[|orderItems| - 1].price == orders[freshIds[0]].realPayAmount
      ensures var reqs := Split(submit.itemSpecIds);
              specs == StockAfter(cart, old(specs), reqs, |reqs|)
      ensures view.orderId == freshIds[0]
      ensures view.merchantOrder
              == MerchantOrder(freshIds[0], submit.userId, orders[freshIds[0]].realPayAmount, submit.payMethod)
      ensures view.merchantOrder.amount == orders[freshIds[0]].realPayAmount + orders[freshIds[0]].postAmount
      ensures var reqs := Split(submit.itemSpecIds);
              view.shopcartList == CartLines(cart, reqs, |reqs|)
    {
      var userId := submit.userId;
      var postAmount := POST_AMOUNT;
      var orderId := freshIds[0];
      var address := addresses[(userId, submit.addressId)];

      var itemSpecIdArr := Split(submit.itemSpecIds);
      var totalAmount, realPayAmount, toBeRemoved := SaveSubOrders(cart, orderId, itemSpecIdArr, freshIds);

      orders := orders[orderId := NewOrder(orderId, submit, address, totalAmount, realPayAmount, now)];
      orderStatus := orderStatus[orderId := WaitPayStatus(orderId, now)];

      var merchantOrder := MerchantOrder(orderId, userId, Add(realPayAmount, postAmount), submit.payMethod);
      view := OrderView(orderId, merchantOrder, toBeRemoved);

      CreateKeepsTables(old(orders), old(orderStatus), old(specs), old(orderItems), items, itemImages,
                        cart, itemSpecIdArr, freshIds, orders[orderId], now);
      if itemSpecIdArr != [] {
        LastSubOrderPrice(orderId, freshIds, cart, old(specs), items, itemImages, itemSpecIdArr);
      }
    }

    /** `queryOrderStatusInfo`: the status row of an order, or null when there is none. */
    function QueryOrderStatusInfo(orderId: string): (r: Option<OrderStatus>)
      reads this
      ensures r.Some? <==> orderId in orderStatus
      ensures r.Some? ==> r.value == orderStatus[orderId]
      ensures r.Some? && Valid() ==> r.value.orderId == orderId
    {
      if orderId in orderStatus then Some(orderStatus[orderId]) else None
    }

    /**
     * `orderStatusMapper.updateByPrimaryKeySelective(p)`: the row keyed `p.orderId`, when
     * there is one, takes the non-null fields of `p`; with no such row nothing changes.
     */
    method UpdateStatusSelective(p: StatusPatch)
      requires Valid()
      modifies this`orderStatus
      ensures Valid()
      ensures orderStatus.Keys == old(orderStatus).Keys
      ensures p.orderId in old(orderStatus)
              ==> orderStatus == old(orderStatus)[p.orderId := ApplySelective(old(orderStatus)[p.orderId], p)]
      ensures p.orderId !in old(orderStatus) ==> orderStatus == old(orderStatus)
    {
      if p.orderId in orderStatus {
        assert ApplySelective(orderStatus[p.orderId], p).orderId == p.orderId;
        orderStatus := orderStatus[p.orderId := ApplySelective(orderStatus[p.orderId], p)];
      }
    }

    /**
     * `updateOrderStatus`: stamps an order as paid at `now` with the given status (a null
     * status keeps the current one). An unknown order id updates no row.
     */
    method UpdateOrderStatus(orderId: string, status: Option<Int32>, now: Time)
      requires Valid()
      modifies this`orderStatus
      ensures Valid()
      ensures old(Consistent()) ==> Consistent()
      ensures orderStatus.Keys == old(orderStatus).Keys
      ensures orderId in old(orderStatus) ==>
                && orderStatus == old(orderStatus)[orderId := orderStatus[orderId]]
                && orderStatus[orderId].orderStatus == status.GetOr(old(orderStatus)[orderId].orderStatus)
                && orderStatus[orderId].payTime == Some(now)
                && orderStatus[orderId].(orderStatus := old(orderStatus)[orderId].orderStatus,
                                         payTime := old(orderStatus)[orderId].payTime)
                   == old(orderStatus)[orderId]
      ensures orderId !in old(orderStatus) ==> orderStatus == old(orderStatus)
    {
      var paidStatus := StatusPatch(orderId, status, None, Some(now), None);
      UpdateStatusSelective(paidStatus);
      if orderId in old(orderStatus) {
        PayPatchEffect(old(orderStatus)[orderId], status, now);
      }
    }

    /**
     * `doCloseOrder`: reads the order's status row and, unless the id is blank, writes it
     * back selectively with status CLOSE and close time `now`. The row must exist when the
     * id is not blank, as the source dereferences it.
     */
    method DoCloseOrder(orderId: string, now: Time)
      requires Valid()
      requires IsBlank(orderId) || orderId in orderStatus
      modifies this`orderStatus
      ensures Valid()
      ensures IsBlank(orderId) ==> orderStatus == old(orderStatus)
      ensures !IsBlank(orderId) ==> orderStatus == old(orderStatus)[orderId := Closed(old(orderStatus)[orderId], now)]
    {
      var closeOrderStatus := QueryOrderStatusInfo(orderId);
      if IsBlank(orderId) {
        return;
      }
      var row := closeOrderStatus.value;
      var patch := StatusPatch(row.orderId, Some(CLOSE), Some(row.createdTime), row.payTime, Some(now));
      CloseWriteBack(row, now);
      UpdateStatusSelective(patch);
    }

    /**
     * `closeOrder`: selects the WAIT_PAY rows and closes, through DoCloseOrder, each whose
     * creation lies at least one day (by `daysBetween`) before `now`. The rows are visited
     * in no particular order; the outcome is the sweep whatever the order.
     */
    method CloseOrder(now: Time, daysBetween: (Time, Time) -> int)
      requires Valid()
      modifies this`orderStatus
      ensures Valid()
      ensures old(Consistent()) ==> Consistent()
      ensures orderStatus == Swept(old(orderStatus), now, daysBetween)
    {
      var list := map id | id in orderStatus && orderStatus[id].orderStatus == WAIT_PAY :: orderStatus[id];
      ghost var t0 := orderStatus;
      var pending := list.Keys;
      while pending != {}
        invariant Valid()
        invariant pending <= list.Keys
        invariant orderStatus.Keys == t0.Keys
        invariant forall id :: id in t0 && id !in pending ==>
                    orderStatus[id] == Swept(t0, now, daysBetween)[id]
        invariant forall id :: id in pending ==> orderStatus[id] == t0[id]
        decreases pending
      {
        var id :| id in pending;
        var os := list[id];
        if daysBetween(os.createdTime, now) >= 1 {
          DoCloseOrder(os.orderId, now);
        }
        pending := pending - {id};
      }
      assert orderStatus == Swept(t0, now, daysBetween);
    }
  }
}
