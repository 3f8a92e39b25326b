/** `POST /api/get-session`: fetch a checkout session from the provider and
    return the three fields the success page reads. */
module GetSession {
  import opened Results
  import opened Js
  import opened Stripe

  /** The request body's `sessionId`, None when absent. Only string values
      are modelled. */
  datatype Body = Body(sessionId: Option<string>)

  /** `checkout.sessions.retrieve(id, { expand })`, as an oracle. */
  type Retrieve = (string, seq<string>) -> Result<Session, Thrown>

  /** The related objects the route asks the provider to expand. */
  const Expand: seq<string> := ["customer", "line_items"]

  /** `{ok: true, session: {id, amount_total, metadata}}` with 200, or
      `{error}` with a 4xx/5xx status. */
  datatype Reply =
    | Loaded(id: string, amountTotal: Option<int>, metadata: Metadata)
    | Failure(status: int, error: string)
  {
    function Status(): int {
      if Loaded? then 200 else status
    }
  }

  /** The route: `secretKey` is `STRIPE_SECRET_KEY`, `body` None when the
      body is not JSON. Returns the reply and the retrievals made. */
  function Post(secretKey: Option<string>, body: Option<Body>, retrieve: Retrieve): (out: (Reply, seq<(string, seq<string>)>))
    ensures !Truthy(secretKey) ==> out == (Failure(500, "Stripe secret key not configured"), [])
    ensures Truthy(secretKey) && body.None? ==> out == (Failure(500, "Failed to load session"), [])
    ensures Truthy(secretKey) && body.Some? && !Truthy(body.value.sessionId) ==>
      out == (Failure(400, "Missing sessionId"), [])
    ensures out.1 == (if Truthy(secretKey) && body.Some? && Truthy(body.value.sessionId)
      then [(body.value.sessionId.value, Expand)] else [])
    ensures Truthy(secretKey) && body.Some? && Truthy(body.value.sessionId) && retrieve(body.value.sessionId.value, Expand).Err?
      ==> out.0 == Failure(500, "Failed to load session")
    ensures out.0.Loaded? <==>
      Truthy(secretKey) && body.Some? && Truthy(body.value.sessionId) && retrieve(body.value.sessionId.value, Expand).Ok?
    ensures out.0.Loaded? ==>
      var s := retrieve(body.value.sessionId.value, Expand).value;
      && out.0 == Loaded(s.id, s.amountTotal, s.metadata)
      && out.1 == [(body.value.sessionId.value, Expand)]
    ensures out.0.Failure? && |out.1| == 1 ==> out.0 == Failure(500, "Failed to load session")
  {
    if !Truthy(secretKey) then (Failure(500, "Stripe secret key not configured"), [])
    else
      match body
      case None => (Failure(500, "Failed to load session"), [])
      case Some(b) =>
        if !Truthy(b.sessionId) then (Failure(400, "Missing sessionId"), [])
        else
          var id := b.sessionId.value;
          match retrieve(id, Expand)
          case Err(_) => (Failure(500, "Failed to load session"), [(id, Expand)])
          case Ok(s) => (Loaded(s.id, s.amountTotal, s.metadata), [(id, Expand)])
  }

  /** The reply's status: 500 without configuration whatever the body, then
      400 for a missing id, 200 exactly when the provider answers. */
  lemma PostStatus(secretKey: Option<string>, body: Option<Body>, retrieve: Retrieve)
    ensures var st := Post(secretKey, body, retrieve).0.Status();
      && (!Truthy(secretKey) ==> st == 500)
      && (Truthy(secretKey) && body.Some? && !Truthy(body.value.sessionId) ==> st == 400)
      && (st == 200 <==> Truthy(secretKey) && body.Some? && Truthy(body.value.sessionId)
                         && retrieve(body.value.sessionId.value, Expand).Ok?)
  {
  }
}
