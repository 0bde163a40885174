/**
 * What the order workflow promises, proved about the functions of OrderSpec: the totals
 * and prices of a new order, its sub-order rows, the stock it takes, and the behaviour
 * of the selective status update and the close sweep.
 */
module OrderProperties {
  import opened Wrappers
  import opened JavaInt
  import opened JavaString
  import opened Pojo
  import opened OrderSpec

  // ---------------------------------------------------------------------------
  // Totals

  /**
   * The `int` totals are exact whenever the exact sums fit in an `int`, however the
   * running totals wrapped on the way.
   */
  lemma TotalsExactWhenInRange(cart: seq<CartLine>, specs: map<string, ItemsSpec>, reqs: seq<string>)
    requires Priced(cart, specs, reqs)
    ensures MIN_INT <= NormalSum(cart, specs, reqs, |reqs|) <= MAX_INT
            ==> Wrap(NormalSum(cart, specs, reqs, |reqs|)) == NormalSum(cart, specs, reqs, |reqs|)
    ensures MIN_INT <= DiscountSum(cart, specs, reqs, |reqs|) <= MAX_INT
            ==> Wrap(DiscountSum(cart, specs, reqs, |reqs|)) == DiscountSum(cart, specs, reqs, |reqs|)
  {
  }

  /**
   * One step of the running normal-price total: adding the next line's `int` product to
   * the wrapped total of the first `n` lines gives the wrapped total of the first `n + 1`.
   */
  lemma NormalStep(cart: seq<CartLine>, specs: map<string, ItemsSpec>, reqs: seq<string>, n: nat,
                   total: Int32, price: Int32, count: Int32)
    requires n < |reqs| && Priced(cart, specs, reqs)
    requires total == Wrap(NormalSum(cart, specs, reqs, n))
    requires price == specs[reqs[n]].priceNormal && count == LineFor(cart, reqs[n]).buyCounts
    ensures Add(total, Mul(price, count)) == Wrap(NormalSum(cart, specs, reqs, n + 1))
  {
    AddOfWrapped(NormalSum(cart, specs, reqs, n), price * count);
  }

  /** The same step for the running discount-price (real-pay) total. */
  lemma DiscountStep(cart: seq<CartLine>, specs: map<string, ItemsSpec>, reqs: seq<string>, n: nat,
                     total: Int32, price: Int32, count: Int32)
    requires n < |reqs| && Priced(cart, specs, reqs)
    requires total == Wrap(DiscountSum(cart, specs, reqs, n))
    requires price == specs[reqs[n]].priceDiscount && count == LineFor(cart, reqs[n]).buyCounts
    ensures Add(total, Mul(price, count)) == Wrap(DiscountSum(cart, specs, reqs, n + 1))
  {
    AddOfWrapped(DiscountSum(cart, specs, reqs, n), price * count);
  }

  /** Both parts of a priced request are priced. */
  lemma PricedParts(cart: seq<CartLine>, specs: map<string, ItemsSpec>, a: seq<string>, b: seq<string>)
    requires Priced(cart, specs, a + b)
    ensures Priced(cart, specs, a) && Priced(cart, specs, b)
  {
    var c := a + b;
    assert forall k :: 0 <= k < |a| ==> c[k] == a[k];
    assert forall j :: 0 <= j < |b| ==> b[j] == c[|a| + j];
  }

  /** Requesting a spec twice counts it twice: the sums over a request split at any point add up. */
  lemma {:induction false} SumsOfConcat(cart: seq<CartLine>, specs: map<string, ItemsSpec>,
                                        a: seq<string>, b: seq<string>)
    requires Priced(cart, specs, a + b)
    ensures Priced(cart, specs, a) && Priced(cart, specs, b)
    ensures NormalSum(cart, specs, a + b, |a + b|)
            == NormalSum(cart, specs, a, |a|) + NormalSum(cart, specs, b, |b|)
    ensures DiscountSum(cart, specs, a + b, |a + b|)
            == DiscountSum(cart, specs, a, |a|) + DiscountSum(cart, specs, b, |b|)
    decreases |b|
  {
    var c := a + b;
    PricedParts(cart, specs, a, b);
    if b == [] {
      assert c == a;
    } else {
      var m := |b| - 1;
      var b' := b[..m];
      var c' := c[..|c| - 1];
      assert c' == a + b';
      assert c[|c| - 1] == b[m];
      PrefixSums(cart, specs, c, c', |c| - 1);
      PrefixSums(cart, specs, b, b', m);
      SumsOfConcat(cart, specs, a, b');
    }
  }

  /** The sums over the first `n` requested specs only look at those `n`. */
  lemma {:induction false} PrefixSums(cart: seq<CartLine>, specs: map<string, ItemsSpec>,
                                      reqs: seq<string>, prefix: seq<string>, n: nat)
    requires Priced(cart, specs, reqs) && n <= |reqs| && prefix == reqs[..n]
    ensures Priced(cart, specs, prefix)
    ensures NormalSum(cart, specs, reqs, n) == NormalSum(cart, specs, prefix, n)
    ensures DiscountSum(cart, specs, reqs, n) == DiscountSum(cart, specs, prefix, n)
    decreases n
  {
    if n > 0 {
      PrefixSums(cart, specs, reqs, reqs[..n - 1], n - 1);
      assert prefix[..n - 1] == reqs[..n - 1];
      PrefixSums(cart, specs, prefix, reqs[..n - 1], n - 1);
    }
  }

  // ---------------------------------------------------------------------------
  // Sub-order rows

  /**
   * The k-th new sub-order row (from 0) is the row for the k-th requested spec: it carries
   * the order id, the (k+1)-th fresh id, the spec, the quantity of the matched cart line,
   * and the running total of discount price times quantity over requests 1..k+1.
   */
  lemma {:induction false} SubOrderAt(orderId: string, freshIds: seq<string>, cart: seq<CartLine>,
                                      specs: map<string, ItemsSpec>, items: map<string, Item>,
                                      images: map<string, string>, reqs: seq<string>, n: nat, k: nat)
    requires n <= |reqs| && n < |freshIds| && Resolvable(cart, specs, items, reqs) && k < n
    ensures SubOrders(orderId, freshIds, cart, specs, items, images, reqs, n)[k]
            == SubOrder(orderId, freshIds[k + 1], reqs[k], cart, specs, items, images,
                        Wrap(DiscountSum(cart, specs, reqs, k + 1)))
  {
    if k < n - 1 {
      SubOrderAt(orderId, freshIds, cart, specs, items, images, reqs, n - 1, k);
    }
  }

  /**
   * One iteration of createOrder's loop, on values: after the first `n` requests the next
   * spec's row differs from the original only in its stock, and the next sub-order is built
   * from that row.
   */
  lemma SaveStep(orderId: string, freshIds: seq<string>, cart: seq<CartLine>,
                 specs: map<string, ItemsSpec>, items: map<string, Item>,
                 images: map<string, string>, reqs: seq<string>, n: nat, t: map<string, ItemsSpec>)
    requires n < |reqs| < |freshIds| && Resolvable(cart, specs, items, reqs)
    requires t == StockAfter(cart, specs, reqs, n)
    ensures reqs[n] in t && t[reqs[n]] == specs[reqs[n]].(stock := t[reqs[n]].stock)
    ensures SubOrders(orderId, freshIds, cart, specs, items, images, reqs, n + 1)
            == SubOrders(orderId, freshIds, cart, specs, items, images, reqs, n)
               + [SubOrder(orderId, freshIds[n + 1], reqs[n], cart, t, items, images,
                           Wrap(DiscountSum(cart, specs, reqs, n + 1)))]
  {
  }

  /**
   * The stock half of one iteration: lowering the next spec's stock by the line's quantity
   * in the table after `n` requests gives the table after `n + 1`.
   */
  lemma StockStepAt(cart: seq<CartLine>, specs: map<string, ItemsSpec>, reqs: seq<string>, n: nat,
                    t: map<string, ItemsSpec>, count: int, u: map<string, ItemsSpec>)
    requires n < |reqs| && Priced(cart, specs, reqs)
    requires t == StockAfter(cart, specs, reqs, n) && count == LineFor(cart, reqs[n]).buyCounts
    requires reqs[n] in t && u == t[reqs[n] := t[reqs[n]].(stock := t[reqs[n]].stock - count)]
    ensures u == StockAfter(cart, specs, reqs, n + 1)
  {
    StockStep(cart, specs, reqs, n);
  }

  /** Each new sub-order row names the order, its spec and the matched cart line's quantity. */
  lemma SubOrderFields(orderId: string, freshIds: seq<string>, cart: seq<CartLine>,
                       specs: map<string, ItemsSpec>, items: map<string, Item>,
                       images: map<string, string>, reqs: seq<string>, k: nat)
    requires |reqs| < |freshIds| && Resolvable(cart, specs, items, reqs) && k < |reqs|
    ensures var row := SubOrders(orderId, freshIds, cart, specs, items, images, reqs, |reqs|)[k];
            && row.id == freshIds[k + 1]
            && row.orderId == orderId
            && row.itemSpecId == reqs[k]
            && row.buyCounts == LineFor(cart, reqs[k]).buyCounts
            && row.itemId == specs[reqs[k]].itemId
            && row.price == Wrap(DiscountSum(cart, specs, reqs, k + 1))
  {
    SubOrderAt(orderId, freshIds, cart, specs, items, images, reqs, |reqs|, k);
  }

  /** The last sub-order's price is the order's real-pay amount: the price is cumulative. */
  lemma LastSubOrderPrice(orderId: string, freshIds: seq<string>, cart: seq<CartLine>,
                          specs: map<string, ItemsSpec>, items: map<string, Item>,
                          images: map<string, string>, reqs: seq<string>)
    requires |reqs| < |freshIds| && Resolvable(cart, specs, items, reqs) && reqs != []
    ensures SubOrders(orderId, freshIds, cart, specs, items, images, reqs, |reqs|)[|reqs| - 1].price
            == Wrap(DiscountSum(cart, specs, reqs, |reqs|))
  {
    SubOrderAt(orderId, freshIds, cart, specs, items, images, reqs, |reqs|, |reqs| - 1);
  }

  /** Appending the new sub-orders keeps sub-order ids unique when the ids are fresh. */
  lemma NewSubOrdersUnique(orderId: string, freshIds: seq<string>, cart: seq<CartLine>,
                           specs: map<string, ItemsSpec>, items: map<string, Item>,
                           images: map<string, string>, reqs: seq<string>,
                           orderKeys: set<string>, statusKeys: set<string>, rows: seq<OrderItem>)
    requires Resolvable(cart, specs, items, reqs)
    requires FreshIds(freshIds, |reqs|, orderKeys, statusKeys, rows) && UniqueIds(rows)
    ensures UniqueIds(rows + SubOrders(orderId, freshIds, cart, specs, items, images, reqs, |reqs|))
  {
    var added := SubOrders(orderId, freshIds, cart, specs, items, images, reqs, |reqs|);
    var all := rows + added;
    forall j | |rows| <= j < |all|
      ensures all[j].id == freshIds[j - |rows| + 1]
    {
      SubOrderAt(orderId, freshIds, cart, specs, items, images, reqs, |reqs|, j - |rows|);
    }
    forall i, j | 0 <= i < j < |all|
      ensures all[i].id != all[j].id
    {
      if j >= |rows| {
        assert all[j].id == freshIds[j - |rows| + 1];
        if i >= |rows| {
          assert all[i].id == freshIds[i - |rows| + 1];
        } else {
          assert all[i] == rows[i];
        }
      }
    }
  }

  /**
   * The new sub-order rows all belong to the new order, so appending them to rows that
   * belong to existing orders gives rows that belong to the orders plus the new one.
   */
  lemma NewSubOrdersBelong(orderId: string, freshIds: seq<string>, cart: seq<CartLine>,
                           specs: map<string, ItemsSpec>, items: map<string, Item>,
                           images: map<string, string>, reqs: seq<string>,
                           rows: seq<OrderItem>, orderKeys: set<string>)
    requires |reqs| < |freshIds| && Resolvable(cart, specs, items, reqs)
    requires ItemsBelong(rows, orderKeys)
    ensures ItemsBelong(SubOrders(orderId, freshIds, cart, specs, items, images, reqs, |reqs|), {orderId})
    ensures ItemsBelong(rows + SubOrders(orderId, freshIds, cart, specs, items, images, reqs, |reqs|),
                        orderKeys + {orderId})
  {
    var added := SubOrders(orderId, freshIds, cart, specs, items, images, reqs, |reqs|);
    forall k | 0 <= k < |added|
      ensures added[k].orderId == orderId
    {
      SubOrderAt(orderId, freshIds, cart, specs, items, images, reqs, |reqs|, k);
    }
    var all := rows + added;
    forall j | 0 <= j < |all|
      ensures all[j].orderId in orderKeys + {orderId}
    {
      if j < |rows| {
        assert all[j] == rows[j];
      } else {
        assert all[j] == added[j - |rows|];
      }
    }
  }

  /** The k-th line the order takes is the first cart line for the k-th requested spec. */
  lemma {:induction false} CartLineAt(cart: seq<CartLine>, reqs: seq<string>, n: nat, k: nat)
    requires n <= |reqs| && AllInCart(cart, reqs) && k < n
    ensures CartLines(cart, reqs, n)[k] == LineFor(cart, reqs[k])
    ensures CartLines(cart, reqs, n)[k].specId == reqs[k]
  {
    if k < n - 1 {
      CartLineAt(cart, reqs, n - 1, k);
    }
  }

  /**
   * The tables createOrder leaves behind, given fresh ids: primary keys stay valid, and if
   * every order had one status row and every sub-order an order, that still holds.
   */
  lemma CreateKeepsTables(orders: map<string, Order>, status: map<string, OrderStatus>,
                          specs: map<string, ItemsSpec>, rows: seq<OrderItem>,
                          items: map<string, Item>, images: map<string, string>,
                          cart: seq<CartLine>, reqs: seq<string>, freshIds: seq<string>,
                          order: Order, now: Time)
    requires KeysValid(orders, status, specs, rows)
    requires Resolvable(cart, specs, items, reqs)
    requires FreshIds(freshIds, |reqs|, orders.Keys, status.Keys, rows)
    requires order.id == freshIds[0]
    ensures var orderId := freshIds[0];
            var orders' := orders[orderId := order];
            var status' := status[orderId := WaitPayStatus(orderId, now)];
            var rows' := rows + SubOrders(orderId, freshIds, cart, specs, items, images, reqs, |reqs|);
            && KeysValid(orders', status', StockAfter(cart, specs, reqs, |reqs|), rows')
            && (TablesConsistent(orders, status, rows) ==> TablesConsistent(orders', status', rows'))
  {
    NewSubOrdersUnique(freshIds[0], freshIds, cart, specs, items, images, reqs, orders.Keys, status.Keys, rows);
    if TablesConsistent(orders, status, rows) {
      NewSubOrdersBelong(freshIds[0], freshIds, cart, specs, items, images, reqs, rows, orders.Keys);
    }
  }

  /** Splitting "S1,S2" at its comma gives the two spec ids. */
  lemma SplitTwo()
    ensures Split("S1,S2") == ["S1", "S2"]
  {
    var s := "S1,S2";
    assert s[0] != ',' && s[1] != ',' && s[2] == ',';
    assert FirstComma(s) == 2;
    var rest := s[3..];
    assert rest == "S2" && ',' !in rest;
    assert s[..2] == "S1";
    assert SplitAll(rest) == ["S2"];
    assert SplitAll(s) == [s[..2]] + SplitAll(rest);
  }

  /**
   * A worked order: the cart holds 2 of S1 (normal 1000, discount 800) and 1 of S2
   * (normal 500, discount 400), one line each, and the order asks for "S1,S2". The totals are 2500 and
   * 2000, the two sub-orders are priced at the running totals 1600 and 2000, and the
   * stock of S1 drops by 2 and that of S2 by 1.
   */
  lemma TwoSpecOrder()
    ensures var cart := [CartLine("S1", 2), CartLine("S2", 1)];
            var specs := map["S1" := ItemsSpec("S1", "I1", "S1", 10, 1000, 800),
                             "S2" := ItemsSpec("S2", "I2", "S2", 10, 500, 400)];
            var items := map["I1" := Item("I1", "one"), "I2" := Item("I2", "two")];
            var reqs := Split("S1,S2");
            var freshIds := ["o", "a", "b"];
            && reqs == ["S1", "S2"]
            && Resolvable(cart, specs, items, reqs)
            && Wrap(NormalSum(cart, specs, reqs, 2)) == 2500
            && Wrap(DiscountSum(cart, specs, reqs, 2)) == 2000
            && SubOrders("o", freshIds, cart, specs, items, map[], reqs, 2)[0].price == 1600
            && SubOrders("o", freshIds, cart, specs, items, map[], reqs, 2)[1].price == 2000
            && StockAfter(cart, specs, reqs, 2)["S1"].stock == 8
            && StockAfter(cart, specs, reqs, 2)["S2"].stock == 9
  {
    SplitTwo();
    var cart := [CartLine("S1", 2), CartLine("S2", 1)];
    assert FirstLineIndex(cart, "S1") == 0;
    assert FirstLineIndex(cart[1..], "S2") == 0;
    assert FirstLineIndex(cart, "S2") == 1;
  }

  // ---------------------------------------------------------------------------
  // Stock

  /**
   * Buying the next requested spec lowers that spec's stock by its cart quantity, as
   * `decreaseItemSpecStock` does, and leaves the other specs alone: decrementing one
   * request at a time arrives at StockAfter.
   */
  lemma StockStep(cart: seq<CartLine>, specs: map<string, ItemsSpec>, reqs: seq<string>, n: nat)
    requires n < |reqs| && AllInCart(cart, reqs) && reqs[n] in specs
    ensures var m := StockAfter(cart, specs, reqs, n);
            StockAfter(cart, specs, reqs, n + 1)
            == m[reqs[n] := m[reqs[n]].(stock := m[reqs[n]].stock - LineFor(cart, reqs[n]).buyCounts)]
  {
  }

  /**
   * Every occurrence of a spec in the request takes the quantity of the same (first) cart
   * line, so the stock a spec loses is its number of occurrences times that quantity.
   */
  lemma {:induction false} CountByOccurrences(cart: seq<CartLine>, reqs: seq<string>, n: nat, id: string)
    requires n <= |reqs| && AllInCart(cart, reqs) && InCart(cart, id)
    ensures CountSum(cart, reqs, n, id) == Occurrences(reqs, n, id) * LineFor(cart, id).buyCounts
  {
    if n > 0 {
      CountByOccurrences(cart, reqs, n - 1, id);
      var q := LineFor(cart, id).buyCounts;
      if reqs[n - 1] == id {
        assert (Occurrences(reqs, n - 1, id) + 1) * q == Occurrences(reqs, n - 1, id) * q + q;
      }
    }
  }

  /** What createOrder does to the spec table, row by row. */
  lemma StockTaken(cart: seq<CartLine>, specs: map<string, ItemsSpec>, reqs: seq<string>, id: string)
    requires AllInCart(cart, reqs) && id in specs && InCart(cart, id)
    ensures var t := StockAfter(cart, specs, reqs, |reqs|);
            && t.Keys == specs.Keys
            && t[id].stock == specs[id].stock - Occurrences(reqs, |reqs|, id) * LineFor(cart, id).buyCounts
            && t[id].(stock := specs[id].stock) == specs[id]
  {
    CountByOccurrences(cart, reqs, |reqs|, id);
  }

  /** A spec that is not among the first `n` requests keeps its stock. */
  lemma {:induction false} UnrequestedCountZero(cart: seq<CartLine>, reqs: seq<string>, n: nat, id: string)
    requires n <= |reqs| && AllInCart(cart, reqs)
    requires forall k :: 0 <= k < n ==> reqs[k] != id
    ensures CountSum(cart, reqs, n, id) == 0
  {
    if n > 0 {
      UnrequestedCountZero(cart, reqs, n - 1, id);
    }
  }

  /** Other specs' rows are untouched by an order that does not request them. */
  lemma UnrequestedStockUnchanged(cart: seq<CartLine>, specs: map<string, ItemsSpec>, reqs: seq<string>,
                                  id: string)
    requires AllInCart(cart, reqs) && id in specs
    requires forall k :: 0 <= k < |reqs| ==> reqs[k] != id
    ensures StockAfter(cart, specs, reqs, |reqs|)[id] == specs[id]
  {
    UnrequestedCountZero(cart, reqs, |reqs|, id);
  }

  // ---------------------------------------------------------------------------
  // Selective status updates

  /**
   * The payment patch of updateOrderStatus sets the status when one is given (a null
   * status leaves it), stamps the pay time, and keeps the key, creation and close times.
   */
  lemma PayPatchEffect(row: OrderStatus, status: Option<Int32>, now: Time)
    ensures var r := ApplySelective(row, StatusPatch(row.orderId, status, None, Some(now), None));
            && r.orderId == row.orderId
            && (status.Some? ==> r.orderStatus == status.value)
            && (status.None? ==> r.orderStatus == row.orderStatus)
            && r.payTime == Some(now)
            && r.createdTime == row.createdTime && r.closeTime == row.closeTime
  {
  }

  /**
   * Writing the fetched row back selectively, with the status set to CLOSE and the close
   * time set to `now`, closes the row and changes nothing else, whichever of its times
   * were null.
   */
  lemma CloseWriteBack(row: OrderStatus, now: Time)
    ensures ApplySelective(row, StatusPatch(row.orderId, Some(CLOSE), Some(row.createdTime), row.payTime, Some(now)))
            == Closed(row, now)
  {
  }

  // ---------------------------------------------------------------------------
  // The close sweep

  /** The sweep closes exactly the stale rows, stamping the close time, and keeps every other row. */
  lemma SweptRows(t: map<string, OrderStatus>, now: Time, daysBetween: (Time, Time) -> int, id: string)
    requires id in t
    ensures var r := Swept(t, now, daysBetween);
            && id in r
            && (Stale(t[id], now, daysBetween) ==>
                  r[id].orderStatus == CLOSE && r[id].closeTime == Some(now)
                  && r[id].(orderStatus := t[id].orderStatus, closeTime := t[id].closeTime) == t[id])
            && (!Stale(t[id], now, daysBetween) ==> r[id] == t[id])
  {
  }

  /** After a sweep no stale row is left, so a second sweep at the same time changes nothing. */
  lemma SweepIdempotent(t: map<string, OrderStatus>, now: Time, daysBetween: (Time, Time) -> int)
    ensures forall id :: id in Swept(t, now, daysBetween) ==> !Stale(Swept(t, now, daysBetween)[id], now, daysBetween)
    ensures Swept(Swept(t, now, daysBetween), now, daysBetween) == Swept(t, now, daysBetween)
  {
  }
}
