# Order/payment reconciliation (backBarMP) in Dafny

A model of the checkout and payment-webhook service in `index.js`. The service
keeps two Firestore collections, both keyed by order id:

- `ordenesCompra`, the orders;
- `tempStorage`, one scratch record per checkout, used later to find the order.

It has two routes:

- `POST /create_preference` asks MercadoPago for a checkout preference. Only if
  that succeeds does it take a fresh document id and write a `pending`,
  unpaid order under it. It then writes a scratch record `{userId, totalAmount,
  orderId, preferenceId}` under the same id. A failed scratch write is
  swallowed.
- `POST /payment_success` is the gateway's notification. It reads `topic` and `id`
  from the query string and accepts only `topic === 'payment'`. It needs the
  payment search to return at least one result. It then takes any one scratch
  record (`limit(1)`, not filtered by the payment), marks that record's order
  `completed` and paid with a payment date, and deletes the record. It answers
  200, 400, 404 or 500.

The project has six modules:

- `Wrappers` (records.dfy): the optional value that stands for a JavaScript field that may be `undefined`.
- `Records` (records.dfy): the documents of both collections, and the invariants
  that tie them together.
- `Gateway` (gateway.dfy): the values the gateway and the query string give the
  handlers.
- `Handlers` (handlers.dfy): each route as a pure transition of the two maps,
  together with the per-request lemmas.
- `Service` (service.dfy): class `Backend`. It holds the two maps as fields, and
  each route is a method that updates them step by step. Each method is proved
  to give exactly the transition in `Handlers`.
- `Runs` (runs.dfy): sequences of requests starting from any collections, and
  the lemmas that hold along them.

Every outcome of an external call is a parameter:

- the result of `preference.create`;
- the id `createIdDoc` returns, which must be fresh;
- whether each Firestore `set`, `get`, `update` and `delete` went through;
- what `payment.search` returns;
- which document `limit(1)` returns;
- the value of `new Date()`.

An `update` of an order that does not exist is rejected, as Firestore rejects
it, so the webhook can never create an order.

What the model shows about the code as written:

- Every order keeps `isPaid == (status == Completed)`, with or without store
  failures.
- No order is ever deleted, and a completed order never goes back to pending.
- The webhook completes at most one order per delivery.
- If no scratch delete fails, every scratch record names a pending order stored
  under its own key. A completed order is then never touched again.
- Which order is completed does not depend on the payment. The payment id, its
  settlement status and its details have no effect (`OutcomeIgnoresPayment`).
- A second delivery of the same notification completes a different order, or
  gets 404 if no scratch record is left (`RedeliveryCompletesAnotherOrder`).
- If the delete fails after the update, the scratch record stays behind. A retry
  can then complete the same order again and overwrite its payment date
  (`RetryAfterDeleteFaultRestamps`).

Two more facts about the code as written:

- The scratch query is not filtered by the payment. The comment at index.js:149
  speaks of finding the record by the payment id, but the query at index.js:150
  takes whichever record comes first.
- The update at index.js:165-169 is unconditional. It does not check that the
  order is still pending.

## Model

| member | source | states |
|---|---|---|
| Handlers.CreatePreference | index.js:43-122 | A failed preference or a failed order write gives 500 and changes neither collection. Otherwise the result is 200 and the order under `id` is set (added, when `id` is fresh), with `orderId == id`, `pending`, unpaid, no payment date, and the request's user, description, amount, currency and preference id. No other order changes. If the temp write succeeds, a record is added under the same id with the same `orderId`, user, amount and preference, and nothing else in temp changes. If the temp write fails, temp is unchanged and the code is still 200. Both invariants are preserved when the id is fresh. |
| Handlers.PaymentSuccess | index.js:134-183 | The code is one of 200/400/404/500. It is 400 exactly when the topic is not `payment`. It is 404 exactly when the search finds nothing, or when temp is empty. It is 200 exactly when everything succeeds. On 200, only the picked record's order changes (completed, paid, dated `now`), and the picked key is removed from temp. On any other code temp is unchanged, and orders change only when the delete fails after the update. Order keys never change and temp never grows. `OrdersConsistent` is always preserved; `Valid` is preserved unless the delete fails. |
| Service.Backend.CreatePreference | index.js:43-122 | the new collections and the status code are exactly `Handlers.CreatePreference` of the old collections; `Valid` is preserved |
| Service.Backend.PaymentSuccess | index.js:134-183 | the new collections and the status code are exactly `Handlers.PaymentSuccess` of the old collections; order keys never change, temp never grows, and `Valid` is preserved when the delete goes through |
| Handlers.CheckoutCompletesNothing | index.js:79-92 | a checkout with a fresh id leaves the set of completed orders unchanged |
| Handlers.PaidOnlyCompletes | index.js:164-169 | marking one order paid adds exactly that order to the completed set and removes none |
| Handlers.PaymentCompletesAtMostOne | index.js:150-172 | a delivery never un-completes an order and adds at most one completed order |
| Handlers.PaymentCompletesExactlyOne | index.js:150-175 | On consistent collections, a 200 completes exactly the order under the picked key. That order was pending before, and the completed set grows by exactly one. |
| Handlers.OutcomeIgnoresPayment | index.js:143-157 | two deliveries that pass the topic test and find a payment have the same effect, whatever the payment |
| Handlers.RedeliveryCompletesAnotherOrder | index.js:150-175 | When the same notification is delivered twice and both get 200, they complete two different orders. If the first delivery consumed the only scratch record, the second gets 404 and changes nothing. |
| Handlers.RetryAfterDeleteFaultRestamps | index.js:165-179 | A delete that fails after the update gives 500. It leaves the record naming a completed order, which breaks `TempConsistent`. A retry that picks the record again gets 200 and overwrites the payment date. |
| Runs.RunKeepsOrdersConsistent | index.js:79-172 | along any admissible run, every order stays under its own id, with `isPaid == (status == Completed)` and a payment date exactly when completed |
| Runs.RunKeepsValid | index.js:95-172 | along any admissible run in which no delete fails, every scratch key names a pending, unpaid order under that key, and the record mirrors that order |
| Runs.RunNeverRevertsOrders | index.js:91-172 | along any admissible run, no order is deleted and no completed order returns to pending |
| Runs.RunCompletesAtMostOnePerNotification | index.js:150-172 | after a run, the number of completed orders grew by at most the number of notifications |
| Runs.RunLeavesCompletedOrdersAlone | index.js:150-172 | from consistent collections, and with no delete failing, an order already completed is identical at the end of the run |
| Runs.ServiceFromEmpty | index.js:76-172 | From empty collections, every reachable state has `isPaid == (status == Completed)` for every order. When no delete failed, every reachable state also satisfies the temp invariant. |

## Left out

- Express routing, CORS options and headers, the JSON body parser, and `app.listen`: these are transport.
- Reading credentials, dotenv, and initialising the Firebase and MercadoPago SDKs: these are I/O and setup.
- The body of a successful checkout response (`res.json(result)`) and the JSON error bodies: only the status code is modelled.
- The webhook's `id` query parameter only feeds `payment.search`, whose outcome is a parameter. So the parameter has no effect in the model.
- `createIdDoc`: its random auto-id is a parameter, with the requirement that it is used by neither collection.
- `new Date()`: an opaque timestamp parameter.
- `console.log` and `console.error` logging.
- Concurrency between requests, and interleaving across `await`s: each request is one atomic step. This is why the race between concurrent checkouts over the shared scratch collection is not modelled.
- Firestore's rejection of `undefined` field values: an absent preference id is stored as an absent value. A set that the store rejects for this or any other reason is covered by the order-write flag.
- `totalAmount` is a JavaScript number. Here it is a `real` that is stored as given and never computed on.
- `limit(1)` without `orderBy` returns the scratch record with the lowest document id under Firestore's default ordering. The model lets the picked record be any key of the collection. This over-approximates the real choice, and every lemma holds for every pick.
- Query parameters given more than once (arrays) count as "not `payment`", like a missing topic.
- Runs.RunKeepsValid: requires that no delete fails, because a failed delete really does break the scratch invariant (see Handlers.RetryAfterDeleteFaultRestamps).
