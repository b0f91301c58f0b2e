/**
 * What the service sees of the MercadoPago gateway and of the webhook request:
 * the preference creation result, the payment search result and the query string.
 * The calls themselves are outside the model; their outcomes are values.
 */
module Gateway {
  import opened Wrappers

  /** The object `preference.create` resolves to: only the two places an id is read from. */
  datatype PreferenceResponse = PreferenceResponse(bodyId: Option<string>, id: Option<string>)

  /** `preference.create` either rejects or resolves. */
  datatype PreferenceOutcome =
    | PreferenceFailed
    | PreferenceCreated(response: PreferenceResponse)

  /** JavaScript truthiness of an optional string: present and not empty. */
  predicate Truthy(s: Option<string>)
  {
    s.Some? && s.value != ""
  }

  /**
   * The stored preference id, `result?.body?.id || result?.id`: the body's id
   * when it is truthy, otherwise whatever the top-level id is (possibly absent).
   */
  function PreferenceId(resp: PreferenceResponse): (r: Option<string>)
    ensures r == resp.bodyId || r == resp.id
    ensures Truthy(resp.bodyId) ==> r == resp.bodyId
    ensures !Truthy(resp.bodyId) ==> r == resp.id
    ensures r.None? <==> !Truthy(resp.bodyId) && resp.id.None?
  {
    if Truthy(resp.bodyId) then resp.bodyId else resp.id
  }

  /** One element of `response.results`; the handler never looks inside it. */
  datatype PaymentFacts = PaymentFacts(id: string, status: string)

  /** The value `payment.search` resolves to: falsy, or an object with an optional `results` array. */
  datatype SearchResponse =
    | NoResponse
    | SearchResponse(results: Option<seq<PaymentFacts>>)

  /** `payment.search` either rejects or resolves. */
  datatype SearchOutcome =
    | SearchFailed
    | SearchReturned(response: SearchResponse)

  /** `!response || !response.results || response.results.length === 0`. */
  predicate NoPaymentFound(resp: SearchResponse)
  {
    resp.NoResponse? || resp.results.None? || |resp.results.value| == 0
  }

  /** The query string of the webhook: `id` and `topic`, each possibly missing. */
  datatype Query = Query(id: Option<string>, topic: Option<string>)

  /** `topic === 'payment'`. */
  predicate IsPaymentTopic(q: Query)
  {
    q.topic == Some("payment")
  }
}
