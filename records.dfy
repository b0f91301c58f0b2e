/** The usual optional value, standing for a JavaScript field that may be `undefined`. */
module Wrappers {
  datatype Option<+T> = None | Some(value: T)
}

/**
 * The documents of the two Firestore collections the service writes:
 * `ordenesCompra` (orders) and `tempStorage` (correlation scratch records),
 * both keyed by the order identifier, and the invariants that tie them together.
 */
module Records {
  import opened Wrappers

  /** A Firestore auto-generated document identifier. */
  type OrderId = string

  /** The value of `new Date()` taken when a payment is recorded; opaque here. */
  type Timestamp = int

  datatype Status = Pending | Completed

  /** A document of `ordenesCompra`. `paymentDate` is absent until the webhook's update adds it. */
  datatype Order = Order(
    userId: string,
    description: string,
    totalAmount: real,
    currencyId: string,
    isPaid: bool,
    preferenceId: Option<string>,
    status: Status,
    orderId: OrderId,
    paymentDate: Option<Timestamp>)

  /** A document of `tempStorage`. */
  datatype TempRecord = TempRecord(
    userId: string,
    totalAmount: real,
    orderId: OrderId,
    preferenceId: Option<string>)

  /** The JSON body of `POST /create_preference`. */
  datatype CheckoutRequest = CheckoutRequest(
    description: string,
    totalAmount: real,
    currencyId: string,
    userId: string)

  /** The two collections. */
  datatype Db = Db(orders: map<OrderId, Order>, temp: map<OrderId, TempRecord>)

  /** The order document written by a checkout. */
  function NewOrder(req: CheckoutRequest, preferenceId: Option<string>, id: OrderId): Order
  {
    Order(req.userId, req.description, req.totalAmount, req.currencyId,
          false, preferenceId, Pending, id, None)
  }

  /** The scratch document written beside it. */
  function NewTempRecord(req: CheckoutRequest, preferenceId: Option<string>, id: OrderId): TempRecord
  {
    TempRecord(req.userId, req.totalAmount, id, preferenceId)
  }

  /** The webhook's `update`: three fields set, every other field kept. */
  function MarkPaid(o: Order, now: Timestamp): Order
  {
    o.(isPaid := true, paymentDate := Some(now), status := Completed)
  }

  /** Every order sits under its own id, and is paid, and dated, exactly when it is completed. */
  ghost predicate OrdersConsistent(orders: map<OrderId, Order>)
  {
    forall k :: k in orders ==>
      && orders[k].orderId == k
      && orders[k].isPaid == (orders[k].status == Completed)
      && (orders[k].paymentDate.Some? <==> orders[k].status == Completed)
  }

  /**
   * Every scratch record sits under the id it names, that id names a pending,
   * unpaid order, and the record repeats that order's user, amount and preference.
   */
  ghost predicate TempConsistent(db: Db)
  {
    forall k :: k in db.temp ==>
      && db.temp[k].orderId == k
      && k in db.orders
      && db.orders[k].status == Pending
      && !db.orders[k].isPaid
      && db.temp[k].userId == db.orders[k].userId
      && db.temp[k].totalAmount == db.orders[k].totalAmount
      && db.temp[k].preferenceId == db.orders[k].preferenceId
  }

  ghost predicate Valid(db: Db)
  {
    OrdersConsistent(db.orders) && TempConsistent(db)
  }

  /** The ids of the orders that are completed. */
  function CompletedIds(orders: map<OrderId, Order>): set<OrderId>
  {
    set k | k in orders && orders[k].status == Completed
  }
}
