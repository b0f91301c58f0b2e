/**
 * Sequences of requests handled one after another, starting from any
 * collections, and what stays true along them.
 */
module Runs {
  import opened Wrappers
  import opened Records
  import opened Gateway
  import opened Handlers

  /** One request with the outcomes of every external call it makes. */
  datatype Event =
    | Checkout(req: CheckoutRequest, pref: PreferenceOutcome, id: OrderId,
               orderWriteOk: bool, tempWriteOk: bool)
    | Notification(query: Query, search: SearchOutcome, pick: OrderId, now: Timestamp,
                   queryOk: bool, updateOk: bool, deleteOk: bool)

  /** What the environment guarantees: auto ids are fresh, and a picked record exists. */
  ghost predicate Admissible(db: Db, e: Event)
  {
    match e
    case Checkout(_, _, id, _, _) => id !in db.orders && id !in db.temp
    case Notification(_, _, pick, _, _, _, _) => pick in db.temp || db.temp == map[]
  }

  function Handle(db: Db, e: Event): Outcome
    requires Admissible(db, e)
  {
    match e
    case Checkout(req, pref, id, orderWriteOk, tempWriteOk) =>
      CreatePreference(db, req, pref, id, orderWriteOk, tempWriteOk)
    case Notification(query, search, pick, now, queryOk, updateOk, deleteOk) =>
      PaymentSuccess(db, query, search, pick, now, queryOk, updateOk, deleteOk)
  }

  ghost predicate AdmissibleRun(db: Db, events: seq<Event>)
    decreases |events|
  {
    events == [] ||
    (Admissible(db, events[0]) && AdmissibleRun(Handle(db, events[0]).db, events[1..]))
  }

  /** The collections after handling `events` in order. */
  function Run(db: Db, events: seq<Event>): Db
    requires AdmissibleRun(db, events)
    decreases |events|
  {
    if events == [] then db else Run(Handle(db, events[0]).db, events[1..])
  }

  /** No delete of a scratch record fails during the run. */
  predicate NoDeleteFault(events: seq<Event>)
  {
    forall i :: 0 <= i < |events| && events[i].Notification? ==> events[i].deleteOk
  }

  function NotificationCount(events: seq<Event>): nat
  {
    if events == [] then 0
    else (if events[0].Notification? then 1 else 0) + NotificationCount(events[1..])
  }

  /** Along any run every order keeps `isPaid == (status == Completed)` and stays under its own id. */
  lemma {:induction false} RunKeepsOrdersConsistent(db: Db, events: seq<Event>)
    requires AdmissibleRun(db, events)
    requires OrdersConsistent(db.orders)
    ensures OrdersConsistent(Run(db, events).orders)
    decreases |events|
  {
    if events != [] {
      RunKeepsOrdersConsistent(Handle(db, events[0]).db, events[1..]);
    }
  }

  /**
   * Along a run in which no scratch delete fails, every scratch record keeps
   * naming a pending, unpaid order stored under its own key.
   */
  lemma {:induction false} RunKeepsValid(db: Db, events: seq<Event>)
    requires AdmissibleRun(db, events)
    requires Valid(db)
    requires NoDeleteFault(events)
    ensures Valid(Run(db, events))
    decreases |events|
  {
    if events != [] {
      assert NoDeleteFault(events[1..]) by {
        forall i | 0 <= i < |events[1..]| && events[1..][i].Notification?
          ensures events[1..][i].deleteOk
        {
          assert events[1..][i] == events[i + 1];
        }
      }
      RunKeepsValid(Handle(db, events[0]).db, events[1..]);
    }
  }

  /** No order is ever deleted, and no completed order ever returns to pending. */
  lemma {:induction false} RunNeverRevertsOrders(db: Db, events: seq<Event>)
    requires AdmissibleRun(db, events)
    ensures db.orders.Keys <= Run(db, events).orders.Keys
    ensures CompletedIds(db.orders) <= CompletedIds(Run(db, events).orders)
    decreases |events|
  {
    if events != [] {
      var e := events[0];
      match e {
        case Checkout(req, pref, id, orderWriteOk, tempWriteOk) =>
          CheckoutCompletesNothing(db, req, pref, id, orderWriteOk, tempWriteOk);
        case Notification(query, search, pick, now, queryOk, updateOk, deleteOk) =>
          PaymentCompletesAtMostOne(db, query, search, pick, now, queryOk, updateOk, deleteOk);
      }
      RunNeverRevertsOrders(Handle(db, e).db, events[1..]);
    }
  }

  /** Each notification completes at most one order; checkouts complete none. */
  lemma {:induction false} RunCompletesAtMostOnePerNotification(db: Db, events: seq<Event>)
    requires AdmissibleRun(db, events)
    ensures |CompletedIds(Run(db, events).orders)| <= |CompletedIds(db.orders)| + NotificationCount(events)
    decreases |events|
  {
    if events != [] {
      var e := events[0];
      match e {
        case Checkout(req, pref, id, orderWriteOk, tempWriteOk) =>
          CheckoutCompletesNothing(db, req, pref, id, orderWriteOk, tempWriteOk);
        case Notification(query, search, pick, now, queryOk, updateOk, deleteOk) =>
          PaymentCompletesAtMostOne(db, query, search, pick, now, queryOk, updateOk, deleteOk);
      }
      RunCompletesAtMostOnePerNotification(Handle(db, e).db, events[1..]);
    }
  }

  /**
   * Starting from consistent collections, and with no scratch delete failing,
   * an order that is completed is never touched again: no later notification
   * picks it, so its payment date is never overwritten.
   */
  lemma {:induction false} RunLeavesCompletedOrdersAlone(db: Db, events: seq<Event>, k: OrderId)
    requires AdmissibleRun(db, events)
    requires Valid(db)
    requires NoDeleteFault(events)
    requires k in CompletedIds(db.orders)
    ensures k in Run(db, events).orders && Run(db, events).orders[k] == db.orders[k]
    decreases |events|
  {
    if events != [] {
      var next := Handle(db, events[0]).db;
      assert k in next.orders && next.orders[k] == db.orders[k];
      assert NoDeleteFault(events[1..]) by {
        forall i | 0 <= i < |events[1..]| && events[1..][i].Notification?
          ensures events[1..][i].deleteOk
        {
          assert events[1..][i] == events[i + 1];
        }
      }
      RunLeavesCompletedOrdersAlone(next, events[1..], k);
    }
  }

  /** The collections of a service that has just started. */
  function Empty(): Db
  {
    Db(map[], map[])
  }

  /**
   * From empty collections, after any run every order satisfies
   * `isPaid == (status == Completed)`; and when no scratch delete failed, every
   * scratch record names a pending order under its own key.
   */
  lemma {:induction false} ServiceFromEmpty(events: seq<Event>)
    requires AdmissibleRun(Empty(), events)
    ensures OrdersConsistent(Run(Empty(), events).orders)
    ensures NoDeleteFault(events) ==> Valid(Run(Empty(), events))
  {
    RunKeepsOrdersConsistent(Empty(), events);
    if NoDeleteFault(events) {
      RunKeepsValid(Empty(), events);
    }
  }
}
