# foodie order workflow and user-centre read, in Dafny

This project models the order workflow of the foodie shop's service layer
(`OrderServiceImpl`) and the user centre's profile read (`CenterUserServiceImpl.queryUserInfo`),
and proves what each operation does to the tables it reads and writes.

- **Creating an order** (`createOrder`). The request names its specs as a comma-separated
  string, split the way Java's `String.split(",")` does. For each requested spec, in request
  order, the service:
  - takes the quantity from the first cart line for that spec;
  - adds price × quantity to two running 32-bit `int` totals, normal and discount;
  - saves a sub-order row whose `price` is the discount total so far;
  - lowers the spec's stock.

  It then inserts the order row and a WAIT_PAY status row, and returns the payment-centre
  payload and the cart lines to remove.
- **Paying** (`updateOrderStatus`). A selective update of one status row: sets the status
  and stamps the pay time.
- **Reading a status** (`queryOrderStatusInfo`). A primary-key lookup.
- **Closing stale orders** (`closeOrder` / `doCloseOrder`). Selects the WAIT_PAY rows and
  closes each one at least a day old: status CLOSE, close time stamped.
- **Reading a profile** (`queryUserInfo`). Returns the user's row with the password cleared.

Modules:
- `Wrappers`: `Option`, which stands for Java's `null`.
- `JavaInt`: 32-bit wrap-around arithmetic.
- `JavaString`: `split(",")` and `StringUtils.isBlank`.
- `Pojo`: the table rows and value objects.
- `OrderSpec`: what the workflow computes, as functions of the tables.
- `OrderProperties`: lemmas about those functions.
- `OrderService`: class `OrderServiceImpl`, whose fields are the tables. They are:
  - orders, order_items and order_status, standing for the three mappers;
  - the spec, item and main-image tables, standing for the item service;
  - the address table, standing for the address service.
- `CenterUserService`: class `CenterUserServiceImpl`, over the users table.

The methods that change tables are imperative. Their frames (`modifies this`orders` and so
on) say which tables may change, and their `ensures` give each new table as a function of
the old tables. The lemmas state what the code promises about those functions.

Each sub-order's `price` is the running real-pay total, not that line's own amount. The
model keeps this behaviour as it is written (`LastSubOrderPrice`, `TwoSpecOrder`).

Behaviour the code has and a reader might not expect:
- `updateOrderStatus` on an unknown order id updates no row and raises no error; the
  mapper's update count is ignored.
- A null status leaves the status as it is (the update is selective).
- `createOrder` does not check stock before calling `decreaseItemSpecStock` (line 141).
  That method is not shown, and the model lowers stock unconditionally, so stock may go
  negative in the model.

Outside inputs are parameters:
- the id generator's fresh ids (`freshIds`: the order's first, then one per sub-order);
- the current time (`now`);
- the day difference (`daysBetween`).

## Model

| member | source | states |
|---|---|---|
| `JavaString.Split` | foodie-dev-service/src/main/java/wiki/laona/service/impl/OrderServiceImpl.java:102 | The pieces of `itemSpecIds.split(",")` contain no comma. A string without a comma is its own single piece, even when empty. Otherwise the result is the comma-separated pieces with the trailing empty ones removed. |
| `JavaString.SplitAll` | foodie-dev-service/src/main/java/wiki/laona/service/impl/OrderServiceImpl.java:102 | Splitting at every comma gives at least one piece, none containing a comma. |
| `JavaString.JoinSplitAll` | foodie-dev-service/src/main/java/wiki/laona/service/impl/OrderServiceImpl.java:102 | Splitting at every comma loses nothing: joining the pieces with commas gives the string back. |
| `JavaString.SplitAllJoin` | foodie-dev-service/src/main/java/wiki/laona/service/impl/OrderServiceImpl.java:102 | Joining comma-free pieces and splitting at every comma gives the pieces back. |
| `JavaString.SplitJoin` | foodie-dev-service/src/main/java/wiki/laona/service/impl/OrderServiceImpl.java:102 | `split(",")` returns exactly the joined spec ids when the last id is not empty (or there is only one). |
| `JavaInt.Wrap` | foodie-dev-service/src/main/java/wiki/laona/service/impl/OrderServiceImpl.java:118-119 | The `int` value of an exact sum is congruent to it modulo 2^32, and equal to it when it is in range. |
| `JavaInt.Add` | foodie-dev-service/src/main/java/wiki/laona/service/impl/OrderServiceImpl.java:118-119 | Java `int` `+` (also the payload amount at line 159): the result is congruent to the exact sum modulo 2^32 and equal to it when the sum is in range. |
| `JavaInt.Mul` | foodie-dev-service/src/main/java/wiki/laona/service/impl/OrderServiceImpl.java:118-119 | Java `int` `*` of price and quantity: the result is congruent to the exact product modulo 2^32 and equal to it when the product is in range. |
| `JavaInt.AddOfWrapped` | foodie-dev-service/src/main/java/wiki/laona/service/impl/OrderServiceImpl.java:118-119 | Summing in `int` step by step gives the wrapped exact sum. |
| `OrderSpec.FirstLineIndex` | foodie-dev-service/src/main/java/wiki/laona/service/impl/OrderServiceImpl.java:179-188 | The index of the first cart line with the spec id: no earlier line matches, and it is the length of the cart when no line does. |
| `OrderService.OrderServiceImpl.GetBuyCountsFromShopcart` | foodie-dev-service/src/main/java/wiki/laona/service/impl/OrderServiceImpl.java:179-188 | Returns null exactly when no cart line has the spec id; otherwise returns the first line that has it. |
| `OrderService.OrderServiceImpl.SaveSubOrder` | foodie-dev-service/src/main/java/wiki/laona/service/impl/OrderServiceImpl.java:110-141 | One loop pass for a spec. It takes the first matching cart line. Each running total gains price × quantity with `int` wrap-around. It appends one sub-order row priced at the new real-pay total. It lowers that spec's stock by the quantity, and no other row changes. |
| `OrderService.OrderServiceImpl.SaveSubOrders` | foodie-dev-service/src/main/java/wiki/laona/service/impl/OrderServiceImpl.java:102-142 | After the loop: the totals are the wrapped sums over the requested list, duplicates counted each time. The appended rows are the sub-orders for the list, in list order. The spec table is the table with each requested spec's stock taken. The lines to remove are the matched cart lines, in list order. |
| `OrderService.OrderServiceImpl.CreateOrder` | foodie-dev-service/src/main/java/wiki/laona/service/impl/OrderServiceImpl.java:60-170 | Inserts exactly one order row, keyed by the new id, holding the address, the two totals, zero postage, NO/NO flags and `now`. Inserts exactly one WAIT_PAY status row created at `now`. Appends the sub-orders and takes the stock. Keys stay unique, and every sub-order still belongs to an order. The last sub-order's price is the real-pay amount. The payload amount is real-pay plus postage, and the cart lines to remove are the matched ones in request order. |
| `OrderProperties.TotalsExactWhenInRange` | foodie-dev-service/src/main/java/wiki/laona/service/impl/OrderServiceImpl.java:118-119 | When the exact sums fit in an `int`, the order's totals are the exact sums of price × quantity. |
| `OrderProperties.NormalStep` | foodie-dev-service/src/main/java/wiki/laona/service/impl/OrderServiceImpl.java:118 | Adding the next line's normal price × quantity, in `int`, to the running total of n lines gives the wrapped total of n + 1 lines. |
| `OrderProperties.DiscountStep` | foodie-dev-service/src/main/java/wiki/laona/service/impl/OrderServiceImpl.java:119 | The same step for the real-pay total. |
| `OrderProperties.SumsOfConcat` | foodie-dev-service/src/main/java/wiki/laona/service/impl/OrderServiceImpl.java:108-119 | The sums over a request split at any point add up, so a spec requested twice is charged twice. |
| `OrderProperties.PrefixSums` | foodie-dev-service/src/main/java/wiki/laona/service/impl/OrderServiceImpl.java:108-119 | The sums over the first n requested specs depend only on those n. |
| `OrderProperties.SubOrderAt` | foodie-dev-service/src/main/java/wiki/laona/service/impl/OrderServiceImpl.java:127-138 | The k-th new sub-order is the one for the k-th requested spec. It takes the (k+1)-th fresh id, and its price is the running discount total over requests 1..k+1. |
| `OrderProperties.SaveStep` | foodie-dev-service/src/main/java/wiki/laona/service/impl/OrderServiceImpl.java:114-138 | After n requests, the next spec's row, re-read at line 116, differs from the original only in stock. The next sub-order is built from that row. |
| `OrderProperties.StockStepAt` | foodie-dev-service/src/main/java/wiki/laona/service/impl/OrderServiceImpl.java:141 | Lowering the next spec's stock by the matched line's quantity, in the table after n requests, gives the table after n + 1 requests. |
| `OrderProperties.SubOrderFields` | foodie-dev-service/src/main/java/wiki/laona/service/impl/OrderServiceImpl.java:127-138 | Each new sub-order carries its fresh id, the new order id, its spec id, the matched cart line's quantity, the spec's item id, and its running price. |
| `OrderProperties.LastSubOrderPrice` | foodie-dev-service/src/main/java/wiki/laona/service/impl/OrderServiceImpl.java:119-137 | The last sub-order's price is the order's real-pay amount. |
| `OrderProperties.NewSubOrdersUnique` | foodie-dev-service/src/main/java/wiki/laona/service/impl/OrderServiceImpl.java:127-138 | With fresh ids from the generator, the sub-order ids stay pairwise distinct after the insert. |
| `OrderProperties.NewSubOrdersBelong` | foodie-dev-service/src/main/java/wiki/laona/service/impl/OrderServiceImpl.java:133-138 | Every new sub-order names the new order, so every sub-order still names an existing order. |
| `OrderProperties.CartLineAt` | foodie-dev-service/src/main/java/wiki/laona/service/impl/OrderServiceImpl.java:110-113 | The k-th line of the list to remove from the cart is the first cart line for the k-th requested spec. |
| `OrderProperties.CreateKeepsTables` | foodie-dev-service/src/main/java/wiki/laona/service/impl/OrderServiceImpl.java:127-153 | The tables after an order keep their primary keys valid. If every order had one status row and every sub-order an order before, that still holds. |
| `OrderProperties.SplitTwo` | foodie-dev-service/src/main/java/wiki/laona/service/impl/OrderServiceImpl.java:102 | `"S1,S2".split(",")` is `["S1", "S2"]`. |
| `OrderProperties.TwoSpecOrder` | foodie-dev-service/src/main/java/wiki/laona/service/impl/OrderServiceImpl.java:102-145 | The order "S1,S2": 2 × S1 at 1000/800 and 1 × S2 at 500/400. Totals are 2500 and 2000. The sub-orders are priced 1600 and 2000, and stock drops by 2 and 1. |
| `OrderProperties.StockStep` | foodie-dev-service/src/main/java/wiki/laona/service/impl/OrderServiceImpl.java:141 | Buying the next requested spec lowers that spec's stock by its cart quantity and leaves every other spec row as it was. |
| `OrderProperties.CountByOccurrences` | foodie-dev-service/src/main/java/wiki/laona/service/impl/OrderServiceImpl.java:110-141 | A spec's total quantity is its number of occurrences in the request times the first matching cart line's quantity. |
| `OrderProperties.StockTaken` | foodie-dev-service/src/main/java/wiki/laona/service/impl/OrderServiceImpl.java:141 | After the order, each spec's stock is down by occurrences × quantity. No spec row appears or disappears, and no other column changes. |
| `OrderProperties.UnrequestedCountZero` | foodie-dev-service/src/main/java/wiki/laona/service/impl/OrderServiceImpl.java:108-141 | A spec that is not requested accumulates no quantity. |
| `OrderProperties.UnrequestedStockUnchanged` | foodie-dev-service/src/main/java/wiki/laona/service/impl/OrderServiceImpl.java:141 | A spec that is not requested keeps its row unchanged. |
| `OrderService.OrderServiceImpl.QueryOrderStatusInfo` | foodie-dev-service/src/main/java/wiki/laona/service/impl/OrderServiceImpl.java:204-206 | Returns null exactly when there is no row for the id; otherwise returns the row, keyed by the id. |
| `OrderService.OrderServiceImpl.UpdateStatusSelective` | foodie-dev-service/src/main/java/wiki/laona/service/impl/OrderServiceImpl.java:199 | The existing row takes the non-null fields of the patch. A missing id changes nothing, and keys and key columns are kept. |
| `OrderService.OrderServiceImpl.UpdateOrderStatus` | foodie-dev-service/src/main/java/wiki/laona/service/impl/OrderServiceImpl.java:192-200 | Only the target row changes. Its status becomes the given one (a null status keeps the old), its pay time becomes `now`, and nothing else changes. An unknown id leaves the table unchanged. |
| `OrderProperties.PayPatchEffect` | foodie-dev-service/src/main/java/wiki/laona/service/impl/OrderServiceImpl.java:194-199 | The payment patch sets the status when given, stamps the pay time, and keeps the key, creation time and close time. |
| `OrderProperties.CloseWriteBack` | foodie-dev-service/src/main/java/wiki/laona/service/impl/OrderServiceImpl.java:230-239 | Writing the fetched row back selectively, with CLOSE and the close time changed, closes the row and changes nothing else. |
| `JavaString.IsBlank` | foodie-dev-service/src/main/java/wiki/laona/service/impl/OrderServiceImpl.java:232 | `StringUtils.isBlank` on a non-null id, defined as the front-to-back scan that stops at the first non-whitespace character. The scan is proved to answer blank exactly when every character is whitespace in the sense of `Character.isWhitespace`, and not blank exactly when some character is not. |
| `JavaString.BlankCases` | foodie-dev-service/src/main/java/wiki/laona/service/impl/OrderServiceImpl.java:232 | The empty string, ASCII whitespace controls and Unicode space and line separators are blank. The three non-breaking spaces (U+00A0, U+2007, U+202F) and a string with a digit are not, as with `Character.isWhitespace`. |
| `OrderService.OrderServiceImpl.DoCloseOrder` | foodie-dev-service/src/main/java/wiki/laona/service/impl/OrderServiceImpl.java:228-240 | A blank id changes nothing. Otherwise only that row changes, to status CLOSE with close time `now`. |
| `OrderService.OrderServiceImpl.CloseOrder` | foodie-dev-service/src/main/java/wiki/laona/service/impl/OrderServiceImpl.java:210-225 | The new status table is the sweep of the old one, whatever order the rows are visited in. |
| `OrderProperties.SweptRows` | foodie-dev-service/src/main/java/wiki/laona/service/impl/OrderServiceImpl.java:210-239 | The sweep closes exactly the stale rows: WAIT_PAY, at least one day old and with a non-blank id. A closed row gets status CLOSE and close time `now`, with nothing else changed. Every other row, young or in another status, is unchanged. |
| `OrderProperties.SweepIdempotent` | foodie-dev-service/src/main/java/wiki/laona/service/impl/OrderServiceImpl.java:210-239 | No stale row survives a sweep, so a second sweep at the same `now` changes nothing. |
| `CenterUserService.CenterUserServiceImpl.QueryUserInfo` | foodie-dev-service/src/main/java/wiki/laona/service/impl/center/CenterUserServiceImpl.java:24-28 | Returns the stored user with the password null and every other column as stored. The users table is not written (no `modifies`). |

## Left out

- Transactions (`@Transactional` commit, rollback and propagation): each operation is
  modelled as its success path. The null dereferences that would abort it are preconditions
  (`Resolvable`, the address lookup, the status row in `DoCloseOrder`, the user in
  `QueryUserInfo`), not modelled error paths.
- MyBatis mappers, `AddressService` and `ItemService` are not part of this model:
  - they are maps and a sequence of rows;
  - an insert is a map update or an append;
  - `decreaseItemSpecStock` lowers the stock by the quantity with no sufficiency check, as
    no check appears at the call;
  - the stock column is an unbounded integer.
- Id generation (`Sid.nextShort`): the ids are a parameter, assumed distinct and fresh.
- Calendar arithmetic (`DateUtil.daysBetween`): a function parameter; times are integers.
- The wall clock (`new Date()`): the parameter `now`. `CloseOrder` uses one `now` for both
  the age test and the close stamp of every row. The source reads the clock anew for each
  selected row's age test (line 219) and again for each close stamp (line 238). Likewise
  `CreateOrder` uses one `now` for the order's created and updated times and the status
  row's created time, which the source reads separately at lines 98, 99 and 152.
- `CloseOrder`: the order in which `select` returns rows is not modelled; the method visits
  them in an arbitrary order, and its result is proved independent of that order.
- `String.format` of the receiver address: a concatenation of the four fields with single
  spaces. `%s` of a null field is not modelled.
- Logging, `RedisOperator`, and the payment centre, which receives only the returned payload.
- `OrderStatus` columns beyond order id, status, created, paid and closed times (the
  deliver, success and comment times); `Users` and `Orders` columns are the ones listed in
  `Pojo`.
- The numeric codes of `OrderStatusEnum` and `YesOrNo` are not shown by the source. The model
  uses 10 for WAIT_PAY and 50 for CLOSE, and 0/1 for NO/YES; the proofs use only that WAIT_PAY
  and CLOSE differ. `Pojo` declares the other codes (WAIT_DELIVER, WAIT_RECEIVE, SUCCESS,
  YES) only to complete the two enums; no modelled operation uses them.
- Null values of the fields taken to be non-null: keys, ids, names, prices, quantities,
  cart lines' spec ids and the status row's created time. A null cart-line spec id never
  matches a requested id under the null-safe comparison at line 183, so it behaves like any
  other non-matching id. A null created time, which `closeOrder` passes to `daysBetween` at
  line 219, is not modelled.
- Null elements of the cart list: `sc.getSpecId()` at line 183 would throw on one; the
  cart is a sequence of lines.
- `IsWhitespace` follows `Character.isWhitespace` as of Java 9 (Unicode 6.3 onwards). On
  Java 8 (Unicode 6.2), U+180E MONGOLIAN VOWEL SEPARATOR is also whitespace; the model
  does not follow that.
- Concurrency between simultaneous orders or sweeps.
- `CenterUserService` (the interface) has no behaviour of its own.
