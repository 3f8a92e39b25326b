/** `POST /api/create-checkout-session`: validate the order form, check the
    configuration, record a placeholder order, open a hosted checkout
    session for it, and give the order the session's id. */
module CheckoutSession {
  import opened Results
  import opened Js
  import opened Stripe
  import opened Orders

  /** The request body's fields, None when absent. Only string values are
      modelled. */
  datatype Body = Body(recipientName: Option<string>, message: Option<string>, cardType: Option<string>)

  /** `STRIPE_PRICE_ID` and `NEXT_PUBLIC_SITE_URL`. */
  datatype Env = Env(priceId: Option<string>, siteUrl: Option<string>)

  /** What the database and the provider do when the route calls them: the
      id the new order gets (or the error `create` throws), the provider's
      answer to `checkout.sessions.create`, and the outcome of the order
      update (None: it goes through). */
  datatype Services = Services(insert: Result<string, Thrown>, createSession: CreateSession, update: Option<Thrown>)

  /** `{url}` with 200, or `{error}` with a 4xx/5xx status. */
  datatype Reply = Redirect(url: Option<string>) | Failure(status: int, error: string) {
    function Status(): int {
      if Redirect? then 200 else status
    }
  }

  /** The reply, the order table afterwards, and the sessions asked of the
      provider. */
  datatype Outcome = Outcome(reply: Reply, orders: seq<Order>, requested: seq<SessionParams>)

  const Internal: Reply := Failure(500, "Internal server error")

  /** The session opened for an order: one unit of the configured price, card
      payment only, back to the site's success page with the session id
      filled in by the provider, or to its home page on cancel. */
  function Params(priceId: string, siteUrl: string, orderId: string): (p: SessionParams)
    ensures p.lineItems == [CatalogPrice(priceId, 1)] && p.metadata == map["orderId" := orderId]
    ensures p.successUrl == siteUrl + "/success?session_id={CHECKOUT_SESSION_ID}"
    ensures p.cancelUrl == siteUrl + "/"
  {
    SessionParams("payment", ["card"], [CatalogPrice(priceId, 1)],
      siteUrl + "/success?session_id={CHECKOUT_SESSION_ID}", siteUrl + "/", map["orderId" := orderId])
  }

  predicate Complete(b: Body) {
    Truthy(b.recipientName) && Truthy(b.message) && Truthy(b.cardType)
  }

  predicate Configured(env: Env) {
    Truthy(env.priceId) && Truthy(env.siteUrl)
  }

  /** The route; `body` is None when the request body is not JSON. */
  function Post(body: Option<Body>, env: Env, orders: seq<Order>, services: Services): (out: Outcome)
    ensures body.None? ==> out == Outcome(Internal, orders, [])
    ensures body.Some? && !Complete(body.value) ==>
      out == Outcome(Failure(400, "Missing required fields"), orders, [])
    ensures body.Some? && Complete(body.value) && !Configured(env) ==>
      out == Outcome(Failure(500, "Server not configured"), orders, [])
    ensures out.reply.Redirect? <==>
      body.Some? && Complete(body.value) && Configured(env) && services.insert.Ok?
      && services.createSession(Params(env.priceId.value, env.siteUrl.value, services.insert.value)).Ok?
      && services.update.None?
    ensures out.reply.Redirect? ==>
      var session := services.createSession(Params(env.priceId.value, env.siteUrl.value, services.insert.value)).value;
      && out.reply.url == session.url
      && out.requested == [Params(env.priceId.value, env.siteUrl.value, services.insert.value)]
      && out.orders == SetSessionId(
           orders + [Placeholder(services.insert.value, body.value.recipientName.value, body.value.message.value,
                                 body.value.cardType.value)],
           services.insert.value, session.id)
    ensures body.Some? && Complete(body.value) && Configured(env) && services.insert.Err? ==>
      out == Outcome(Internal, orders, [])
    ensures body.Some? && Complete(body.value) && Configured(env) && !out.reply.Redirect? ==>
      out.reply == Internal
    ensures out.reply.Failure? ==> out.reply.status in {400, 500}
    ensures |out.requested| <= 1
  {
    match body
    case None => Outcome(Internal, orders, [])
    case Some(b) =>
      if !Complete(b) then Outcome(Failure(400, "Missing required fields"), orders, [])
      else if !Configured(env) then Outcome(Failure(500, "Server not configured"), orders, [])
      else
        match services.insert
        case Err(_) => Outcome(Internal, orders, [])
        case Ok(orderId) =>
          var placed := orders + [Placeholder(orderId, b.recipientName.value, b.message.value, b.cardType.value)];
          var params := Params(env.priceId.value, env.siteUrl.value, orderId);
          match services.createSession(params)
          case Err(_) => Outcome(Internal, placed, [params])
          case Ok(session) =>
            if services.update.Some? then Outcome(Internal, placed, [params])
            else Outcome(Redirect(session.url), SetSessionId(placed, orderId, session.id), [params])
  }

  /** On success the new order, and only it among orders with other ids,
      changes: it is the form's order, unpaid, carrying the session id. */
  lemma PostSuccessOrders(body: Option<Body>, env: Env, orders: seq<Order>, services: Services)
    requires Post(body, env, orders, services).reply.Redirect?
    requires forall i :: 0 <= i < |orders| ==> orders[i].id != services.insert.value
    ensures var out := Post(body, env, orders, services);
      var session := services.createSession(Params(env.priceId.value, env.siteUrl.value, services.insert.value)).value;
      && out.orders[..|orders|] == orders
      && out.orders[|orders|] == Order(services.insert.value, body.value.recipientName.value, body.value.message.value,
                                       body.value.cardType.value, session.id, false)
      && |out.orders| == |orders| + 1
  {
    var out := Post(body, env, orders, services);
    assert forall i :: 0 <= i < |orders| ==> out.orders[i] == orders[i];
  }

  /** A failure after the placeholder was recorded leaves it in place,
      with the empty session id. */
  lemma PlaceholderSurvivesFailure(b: Body, env: Env, orders: seq<Order>, services: Services)
    requires Complete(b) && Configured(env) && services.insert.Ok?
    requires !Post(Some(b), env, orders, services).reply.Redirect?
    ensures var out := Post(Some(b), env, orders, services);
      && out.reply == Internal
      && out.orders == orders + [Order(services.insert.value, b.recipientName.value, b.message.value, b.cardType.value, "", false)]
  {
  }
}
