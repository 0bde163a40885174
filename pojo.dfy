/**
 * The records the services read and write: the rows of the orders, order_items,
 * order_status, items_spec, items, user_address and users tables, the cart line and
 * submission objects a caller passes in, and the value objects createOrder returns.
 * A field the workflow may carry as null (the buyer's message and pay method, an item's
 * image, the status row's pay and close times, the users' profile columns) is an Option;
 * keys, ids, names and prices are taken to be non-null. A Java `Integer` is an Int32.
 */
module Pojo {
  import opened Wrappers
  import opened JavaInt

  /** A point in time (`java.util.Date`), as milliseconds since the epoch. */
  type Time = int

  /** Codes of `OrderStatusEnum`; WAIT_DELIVER, WAIT_RECEIVE and SUCCESS complete the enum. */
  const WAIT_PAY: Int32 := 10
  const WAIT_DELIVER: Int32 := 20
  const WAIT_RECEIVE: Int32 := 30
  const SUCCESS: Int32 := 40
  const CLOSE: Int32 := 50

  /** Codes of `YesOrNo`; YES completes the enum. */
  const YES: Int32 := 1
  const NO: Int32 := 0

  /** `ShopcartBO`, as far as the order workflow reads it. */
  datatype CartLine = CartLine(specId: string, buyCounts: Int32)

  /** `SubmitOrderBO`: what the buyer submits; `itemSpecIds` is a comma-separated list. */
  datatype SubmitOrder = SubmitOrder(
    userId: string,
    addressId: string,
    itemSpecIds: string,
    payMethod: Option<Int32>,
    leftMsg: Option<string>)

  /** A row of user_address. */
  datatype UserAddress = UserAddress(
    receiver: string,
    mobile: string,
    province: string,
    city: string,
    district: string,
    detail: string)

  /** A row of items_spec: one purchasable variant of an item, with its prices and stock. */
  datatype ItemsSpec = ItemsSpec(
    id: string,
    itemId: string,
    name: string,
    stock: int,
    priceNormal: Int32,
    priceDiscount: Int32)

  /** A row of items. */
  datatype Item = Item(id: string, itemName: string)

  /** A row of orders. */
  datatype Order = Order(
    id: string,
    userId: string,
    receiverName: string,
    receiverMobile: string,
    receiverAddress: string,
    totalAmount: Int32,
    realPayAmount: Int32,
    postAmount: Int32,
    payMethod: Option<Int32>,
    leftMsg: Option<string>,
    isComment: Int32,
    isDelete: Int32,
    createdTime: Time,
    updatedTime: Time)

  /** A row of order_items: one sub-order, a snapshot of the spec bought. */
  datatype OrderItem = OrderItem(
    id: string,
    orderId: string,
    itemId: string,
    itemName: string,
    itemImg: Option<string>,
    itemSpecId: string,
    itemSpecName: string,
    buyCounts: Int32,
    price: Int32)

  /** A row of order_status, keyed by its order's id. */
  datatype OrderStatus = OrderStatus(
    orderId: string,
    orderStatus: Int32,
    createdTime: Time,
    payTime: Option<Time>,
    closeTime: Option<Time>)

  /**
   * The argument of `updateByPrimaryKeySelective` on order_status: only the fields that
   * are not null are written.
   */
  datatype StatusPatch = StatusPatch(
    orderId: string,
    orderStatus: Option<Int32>,
    createdTime: Option<Time>,
    payTime: Option<Time>,
    closeTime: Option<Time>)

  /** `MerchantOrdersVO`: the payload handed to the payment centre. */
  datatype MerchantOrder = MerchantOrder(
    merchantOrderId: string,
    merchantUserId: string,
    amount: Int32,
    payMethod: Option<Int32>)

  /** `OrderVO`: what createOrder returns. */
  datatype OrderView = OrderView(
    orderId: string,
    merchantOrder: MerchantOrder,
    shopcartList: seq<CartLine>)

  /** A row of users; `password` is the stored credential. */
  datatype Users = Users(
    id: string,
    username: string,
    password: Option<string>,
    nickname: Option<string>,
    realname: Option<string>,
    face: Option<string>,
    mobile: Option<string>,
    email: Option<string>,
    sex: Option<Int32>,
    birthday: Option<Time>,
    createdTime: Time,
    updatedTime: Time)
}
