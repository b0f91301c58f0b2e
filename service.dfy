/**
 * The running service: the two Firestore collections as mutable state, and one
 * method per route that updates them step by step as the route's code does.
 */
module Service {
  import opened Wrappers
  import opened Records
  import opened Gateway
  import Handlers

  class Backend {
    /** The `ordenesCompra` collection. */
    var orders: map<OrderId, Order>
    /** The `tempStorage` collection. */
    var temp: map<OrderId, TempRecord>

    function State(): Db
      reads this
    {
      Db(orders, temp)
    }

    ghost predicate Valid()
      reads this
    {
      Records.Valid(State())
    }

    constructor ()
      ensures orders == map[] && temp == map[]
      ensures Valid()
    {
      orders := map[];
      temp := map[];
    }

    /**
     * `POST /create_preference`. `pref` is what `preference.create` gave;
     * `orderId` is what `createIdDoc` gave, a key not used in either collection;
     * `orderWriteOk` and `tempWriteOk` say whether the two `set` calls went through.
     */
    method CreatePreference(req: CheckoutRequest, pref: PreferenceOutcome, orderId: OrderId,
                            orderWriteOk: bool, tempWriteOk: bool) returns (code: int)
      requires orderId !in orders && orderId !in temp
      modifies this
      ensures Handlers.Outcome(State(), code)
           == Handlers.CreatePreference(old(State()), req, pref, orderId, orderWriteOk, tempWriteOk)
      ensures code == Handlers.Ok ==> orderId in orders && orders[orderId].status == Pending
      ensures code == Handlers.ServerError ==> orders == old(orders) && temp == old(temp)
      ensures old(Valid()) ==> Valid()
    {
      if pref.PreferenceFailed? {
        return Handlers.ServerError;
      }
      var preferenceId := PreferenceId(pref.response);
      if !orderWriteOk {
        return Handlers.ServerError;
      }
      orders := orders[orderId := NewOrder(req, preferenceId, orderId)];
      if tempWriteOk {
        temp := temp[orderId := NewTempRecord(req, preferenceId, orderId)];
      }
      return Handlers.Ok;
    }

    /**
     * `POST /payment_success`. `search` is what `payment.search` gave; `pick` is
     * the document `tempStorage.limit(1).get()` returns when the collection is not
     * empty; `queryOk`, `updateOk` and `deleteOk` say whether that read, the
     * order's `update` and the record's `delete` went through; `now` is the
     * payment date.
     */
    method PaymentSuccess(query: Query, search: SearchOutcome, pick: OrderId, now: Timestamp,
                          queryOk: bool, updateOk: bool, deleteOk: bool) returns (code: int)
      requires pick in temp || temp == map[]
      modifies this
      ensures Handlers.Outcome(State(), code)
           == Handlers.PaymentSuccess(old(State()), query, search, pick, now, queryOk, updateOk, deleteOk)
      ensures orders.Keys == old(orders.Keys) && temp.Keys <= old(temp.Keys)
      ensures old(Valid()) && deleteOk ==> Valid()
    {
      if !IsPaymentTopic(query) {
        return Handlers.BadRequest;
      }
      if search.SearchFailed? {
        return Handlers.ServerError;
      }
      if NoPaymentFound(search.response) {
        return Handlers.NotFound;
      }
      if !queryOk {
        return Handlers.ServerError;
      }
      if temp == map[] {
        return Handlers.NotFound;
      }
      var record := temp[pick];
      var orderId := record.orderId;
      if orderId !in orders || !updateOk {
        return Handlers.ServerError;
      }
      orders := orders[orderId := MarkPaid(orders[orderId], now)];
      if !deleteOk {
        return Handlers.ServerError;
      }
      temp := temp - {pick};
      return Handlers.Ok;
    }
  }
}
