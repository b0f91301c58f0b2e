/**
 * The two request handlers as transitions of the two collections: each takes
 * the collections before the request, the request and every outcome of an
 * external call, and gives the collections afterwards with the HTTP status.
 */
module Handlers {
  import opened Wrappers
  import opened Records
  import opened Gateway

  const Ok: int := 200
  const BadRequest: int := 400
  const NotFound: int := 404
  const ServerError: int := 500

  datatype Outcome = Outcome(db: Db, code: int)

  /** `after` is `before` with exactly the order `id` marked paid at `now`. */
  ghost predicate PaidOnly(before: map<OrderId, Order>, after: map<OrderId, Order>, id: OrderId, now: Timestamp)
  {
    && id in before
    && after.Keys == before.Keys
    && after[id] == MarkPaid(before[id], now)
    && forall k :: k in before && k != id ==> after[k] == before[k]
  }

  /**
   * `POST /create_preference`. The preference is requested first; only when it
   * is created are an order (under the fresh `id`) and then a scratch record
   * (under the same id) written. A rejected order write ends in the outer catch;
   * a rejected scratch write is swallowed.
   */
  function CreatePreference(db: Db, req: CheckoutRequest, pref: PreferenceOutcome, id: OrderId,
                            orderWriteOk: bool, tempWriteOk: bool): (r: Outcome)
    ensures r.code == Ok || r.code == ServerError
    ensures r.code == Ok <==> pref.PreferenceCreated? && orderWriteOk
    ensures r.code == ServerError ==> r.db == db
    // the order written on success
    ensures r.code == Ok ==>
      && r.db.orders.Keys == db.orders.Keys + {id}
      && r.db.orders[id].orderId == id
      && r.db.orders[id].status == Pending
      && !r.db.orders[id].isPaid
      && r.db.orders[id].paymentDate.None?
      && r.db.orders[id].userId == req.userId
      && r.db.orders[id].description == req.description
      && r.db.orders[id].totalAmount == req.totalAmount
      && r.db.orders[id].currencyId == req.currencyId
      && r.db.orders[id].preferenceId == PreferenceId(pref.response)
      && (forall k :: k in db.orders && k != id ==> r.db.orders[k] == db.orders[k])
    // the scratch record, when its write goes through
    ensures r.code == Ok && tempWriteOk ==>
      && r.db.temp.Keys == db.temp.Keys + {id}
      && r.db.temp[id].orderId == id
      && r.db.temp[id].userId == req.userId
      && r.db.temp[id].totalAmount == req.totalAmount
      && r.db.temp[id].preferenceId == r.db.orders[id].preferenceId
      && (forall k :: k in db.temp && k != id ==> r.db.temp[k] == db.temp[k])
    ensures !tempWriteOk ==> r.db.temp == db.temp
    ensures OrdersConsistent(db.orders) ==> OrdersConsistent(r.db.orders)
    ensures Valid(db) && id !in db.orders ==> Valid(r.db)
  {
    match pref
    case PreferenceFailed => Outcome(db, ServerError)
    case PreferenceCreated(response) =>
      if !orderWriteOk then Outcome(db, ServerError)
      else
        var preferenceId := PreferenceId(response);
        var orders := db.orders[id := NewOrder(req, preferenceId, id)];
        var temp := if tempWriteOk then db.temp[id := NewTempRecord(req, preferenceId, id)] else db.temp;
        Outcome(Db(orders, temp), Ok)
  }

  /** The webhook gets past the topic test and the payment search. */
  predicate PaymentFound(query: Query, search: SearchOutcome)
  {
    IsPaymentTopic(query) && search.SearchReturned? && !NoPaymentFound(search.response)
  }

  /**
   * `POST /payment_success`. `pick` is the document `tempStorage.limit(1)`
   * returns: any scratch record, whatever the payment. Its `orderId` names the
   * order to update; its own key is the document deleted afterwards. An update
   * of a missing order, and every rejected store call, ends in the catch (500).
   */
  function PaymentSuccess(db: Db, query: Query, search: SearchOutcome, pick: OrderId, now: Timestamp,
                          queryOk: bool, updateOk: bool, deleteOk: bool): (r: Outcome)
    requires pick in db.temp || db.temp == map[]
    ensures r.code == Ok || r.code == BadRequest || r.code == NotFound || r.code == ServerError
    ensures r.code == BadRequest <==> !IsPaymentTopic(query)
    ensures r.code == NotFound <==>
      || (IsPaymentTopic(query) && search.SearchReturned? && NoPaymentFound(search.response))
      || (PaymentFound(query, search) && queryOk && db.temp == map[])
    ensures r.code == Ok <==>
      && PaymentFound(query, search) && queryOk && db.temp != map[]
      && db.temp[pick].orderId in db.orders && updateOk && deleteOk
    // a successful delivery completes the picked record's order and consumes the record
    ensures r.code == Ok ==>
      && PaidOnly(db.orders, r.db.orders, db.temp[pick].orderId, now)
      && r.db.temp == db.temp - {pick}
    // every other delivery changes nothing, except when the delete alone fails
    ensures r.code != Ok ==> r.db.temp == db.temp
    ensures r.code != Ok && r.db.orders != db.orders ==>
      && r.code == ServerError && !deleteOk && pick in db.temp
      && PaidOnly(db.orders, r.db.orders, db.temp[pick].orderId, now)
    ensures r.db.orders.Keys == db.orders.Keys
    ensures r.db.temp.Keys <= db.temp.Keys
    ensures OrdersConsistent(db.orders) ==> OrdersConsistent(r.db.orders)
    ensures Valid(db) && deleteOk ==> Valid(r.db)
  {
    if !IsPaymentTopic(query) then Outcome(db, BadRequest)
    else if search.SearchFailed? then Outcome(db, ServerError)
    else if NoPaymentFound(search.response) then Outcome(db, NotFound)
    else if !queryOk then Outcome(db, ServerError)
    else if db.temp == map[] then Outcome(db, NotFound)
    else
      var orderId := db.temp[pick].orderId;
      if orderId !in db.orders || !updateOk then Outcome(db, ServerError)
      else
        var orders := db.orders[orderId := MarkPaid(db.orders[orderId], now)];
        if !deleteOk then Outcome(Db(orders, db.temp), ServerError)
        else Outcome(Db(orders, db.temp - {pick}), Ok)
  }

  /** A successful checkout with a fresh id completes no order. */
  lemma CheckoutCompletesNothing(db: Db, req: CheckoutRequest, pref: PreferenceOutcome, id: OrderId,
                                 orderWriteOk: bool, tempWriteOk: bool)
    requires id !in db.orders
    ensures CompletedIds(CreatePreference(db, req, pref, id, orderWriteOk, tempWriteOk).db.orders)
            == CompletedIds(db.orders)
  {
  }

  /** Marking one order paid adds exactly that order to the completed ones, and drops none. */
  lemma PaidOnlyCompletes(before: map<OrderId, Order>, after: map<OrderId, Order>, id: OrderId, now: Timestamp)
    requires PaidOnly(before, after, id, now)
    ensures CompletedIds(after) == CompletedIds(before) + {id}
  {
  }

  /**
   * A webhook delivery completes at most one order, the one its scratch record
   * names, and never un-completes one.
   */
  lemma PaymentCompletesAtMostOne(db: Db, query: Query, search: SearchOutcome, pick: OrderId, now: Timestamp,
                                  queryOk: bool, updateOk: bool, deleteOk: bool)
    requires pick in db.temp || db.temp == map[]
    ensures var after := PaymentSuccess(db, query, search, pick, now, queryOk, updateOk, deleteOk).db.orders;
      && CompletedIds(db.orders) <= CompletedIds(after)
      && |CompletedIds(after)| <= |CompletedIds(db.orders)| + 1
  {
    var after := PaymentSuccess(db, query, search, pick, now, queryOk, updateOk, deleteOk).db.orders;
    if after != db.orders {
      var id := db.temp[pick].orderId;
      PaidOnlyCompletes(db.orders, after, id, now);
    }
  }

  /**
   * On consistent collections a successful delivery completes exactly one order
   * that was pending: the one stored under the picked key.
   */
  lemma PaymentCompletesExactlyOne(db: Db, query: Query, search: SearchOutcome, pick: OrderId, now: Timestamp,
                                   queryOk: bool, updateOk: bool, deleteOk: bool)
    requires Valid(db)
    requires pick in db.temp || db.temp == map[]
    requires PaymentSuccess(db, query, search, pick, now, queryOk, updateOk, deleteOk).code == Ok
    ensures var after := PaymentSuccess(db, query, search, pick, now, queryOk, updateOk, deleteOk).db.orders;
      && pick in db.orders && db.orders[pick].status == Pending
      && after[pick].status == Completed && after[pick].isPaid && after[pick].paymentDate == Some(now)
      && CompletedIds(after) == CompletedIds(db.orders) + {pick}
      && |CompletedIds(after)| == |CompletedIds(db.orders)| + 1
  {
  }

  /**
   * Which order a delivery completes does not depend on the payment at all:
   * two deliveries that both pass the topic test and find some payment have the
   * same effect, whatever the payment id, its settlement status or its details.
   */
  lemma OutcomeIgnoresPayment(db: Db, q1: Query, q2: Query, s1: SearchOutcome, s2: SearchOutcome,
                              pick: OrderId, now: Timestamp, queryOk: bool, updateOk: bool, deleteOk: bool)
    requires pick in db.temp || db.temp == map[]
    requires PaymentFound(q1, s1) && PaymentFound(q2, s2)
    ensures PaymentSuccess(db, q1, s1, pick, now, queryOk, updateOk, deleteOk)
         == PaymentSuccess(db, q2, s2, pick, now, queryOk, updateOk, deleteOk)
  {
  }

  /**
   * Delivering the same notification twice: when both deliveries succeed they
   * complete two different orders; when the first consumed the only scratch
   * record, the second is answered 404.
   */
  lemma RedeliveryCompletesAnotherOrder(db: Db, query: Query, search: SearchOutcome,
                                        pick1: OrderId, pick2: OrderId, now1: Timestamp, now2: Timestamp)
    requires Valid(db)
    requires pick1 in db.temp || db.temp == map[]
    requires var first := PaymentSuccess(db, query, search, pick1, now1, true, true, true);
      first.code == Ok && (pick2 in first.db.temp || first.db.temp == map[])
    ensures var first := PaymentSuccess(db, query, search, pick1, now1, true, true, true);
      var second := PaymentSuccess(first.db, query, search, pick2, now2, true, true, true);
      && (second.code == Ok ==> pick1 != pick2 && CompletedIds(second.db.orders) == CompletedIds(db.orders) + {pick1, pick2})
      && (db.temp.Keys == {pick1} ==> second.code == NotFound && second.db == first.db)
  {
  }

  /**
   * A delete that fails after the update leaves the scratch record behind,
   * naming an order that is already completed; the gateway's retry of the same
   * notification may pick it again, and then completes that order a second
   * time with a new payment date and answers 200.
   */
  lemma RetryAfterDeleteFaultRestamps(db: Db, query: Query, search: SearchOutcome, pick: OrderId,
                                      now1: Timestamp, now2: Timestamp)
    requires Valid(db)
    requires pick in db.temp
    requires PaymentFound(query, search)
    ensures var first := PaymentSuccess(db, query, search, pick, now1, true, true, false);
      && first.code == ServerError
      && pick in first.db.temp && first.db.orders[pick].status == Completed
      && !TempConsistent(first.db)
      && var second := PaymentSuccess(first.db, query, search, pick, now2, true, true, true);
         && second.code == Ok
         && second.db.orders[pick].paymentDate == Some(now2)
         && second.db.temp == db.temp - {pick}
  {
  }
}
