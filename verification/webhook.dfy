/** `POST /api/stripe-webhook`: verify the provider's signature over the raw
    body, and on a completed checkout flag the session's orders paid. */
module Webhook {
  import opened Results
  import opened Bytes
  import opened Js
  import opened Stripe
  import opened Orders

  /** `webhooks.constructEvent(body, signature, secret)`: the verified event,
      or the error verification throws. */
  type Verify = (seq<Byte>, string, string) -> Result<Event, Thrown>

  const CompletedType: string := "checkout.session.completed"

  /** A plain response: a status and a text body. */
  datatype Reply = Reply(status: int, body: string)

  const Received: string := "{\"received\":true}"

  /** The route. `signature` is the `stripe-signature` header and `secret`
      the configured webhook secret, both absent as None; `update` is what
      `updateMany` does when it is called (None: it goes through). Any error,
      from verification or from the update, is answered with 400. */
  function Post(signature: Option<string>, secret: Option<string>, body: seq<Byte>, verify: Verify,
                update: Option<Thrown>, orders: seq<Order>): (out: (Reply, seq<Order>))
    ensures out.0.status == 200 || out.0.status == 400
    ensures out.0.status == 200 ==> out.0.body == Received
    ensures verify(body, Or(signature, ""), Or(secret, "")).Err? ==>
      out == (Reply(400, "Webhook Error: " + Describe(verify(body, Or(signature, ""), Or(secret, "")).error)), orders)
    ensures out.0.status == 400 ==> out.1 == orders
    ensures var v := verify(body, Or(signature, ""), Or(secret, ""));
      v.Ok? && v.value.eventType != CompletedType ==> out == (Reply(200, Received), orders)
    ensures var v := verify(body, Or(signature, ""), Or(secret, ""));
      v.Ok? && v.value.eventType == CompletedType && update.None? ==>
        out == (Reply(200, Received), MarkPaid(orders, v.value.sessionId))
    ensures var v := verify(body, Or(signature, ""), Or(secret, ""));
      v.Ok? && v.value.eventType == CompletedType && update.Some? ==>
        out == (Reply(400, "Webhook Error: " + Describe(update.value)), orders)
  {
    var sig := Or(signature, "");
    var key := Or(secret, "");
    match verify(body, sig, key)
    case Err(err) => (Reply(400, "Webhook Error: " + Describe(err)), orders)
    case Ok(event) =>
      if event.eventType == CompletedType then
        match update
        case Some(err) => (Reply(400, "Webhook Error: " + Describe(err)), orders)
        case None => (Reply(200, Received), MarkPaid(orders, event.sessionId))
      else (Reply(200, Received), orders)
  }

  /** Delivering the same event twice leaves the table as delivering it
      once, and both deliveries are acknowledged alike. */
  lemma PostIdempotent(signature: Option<string>, secret: Option<string>, body: seq<Byte>, verify: Verify,
                       orders: seq<Order>)
    ensures var once := Post(signature, secret, body, verify, None, orders);
      Post(signature, secret, body, verify, None, once.1) == once
  {
    match verify(body, Or(signature, ""), Or(secret, ""))
    case Err(_) =>
    case Ok(e) =>
      if e.eventType == CompletedType {
        MarkPaidIdempotent(orders, e.sessionId);
      }
  }

  /** After an acknowledged completed event the session's orders are paid,
      and an order was paid afterwards only if it was paid before or belongs
      to the session. */
  lemma PaidAfterCompleted(signature: Option<string>, secret: Option<string>, body: seq<Byte>, verify: Verify,
                           update: Option<Thrown>, orders: seq<Order>, i: nat)
    requires verify(body, Or(signature, ""), Or(secret, "")).Ok?
    requires verify(body, Or(signature, ""), Or(secret, "")).value.eventType == CompletedType
    requires i < |orders|
    ensures var out := Post(signature, secret, body, verify, update, orders);
      var reply, after := out.0, out.1;
      var sessionId := verify(body, Or(signature, ""), Or(secret, "")).value.sessionId;
      && |after| == |orders| && SameButPaid(after[i], orders[i])
      && (reply.status == 200 ==> (after[i].paid <==> orders[i].paid || orders[i].stripeSessionId == sessionId))
  {
  }
}
