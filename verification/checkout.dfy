/** `POST /api/checkout`: open a fixed-price checkout session for the
    premium card export, or answer with a placeholder id when the provider
    key is not configured. */
module Checkout {
  import opened Results
  import opened Js
  import opened Stripe

  const DummySessionId: string := "dummy-session-id-build"

  /** The one thing sold here: 400 pence (GBP 4.00), one unit. */
  const PremiumExport: LineItem := AdHocPrice("gbp", "Premium Card Export", 400, 1)

  /** `{id}` with 200, or `{error: "Stripe error"}` with 500. */
  datatype Reply = SessionId(id: string) | StripeError {
    function Status(): int {
      if SessionId? then 200 else 500
    }
  }

  /** The session parameters. The site URL is interpolated as it stands, so
      an unset variable yields the text "undefined" in both URLs. */
  function Params(siteUrl: Option<string>): (p: SessionParams)
    ensures p.lineItems == [PremiumExport] && p.mode == "payment" && p.paymentMethodTypes == ["card"]
    ensures siteUrl.Some? ==> p.successUrl == siteUrl.value + "/success" && p.cancelUrl == siteUrl.value + "/cancel"
    ensures siteUrl.None? ==> p.successUrl == "undefined/success" && p.cancelUrl == "undefined/cancel"
    ensures p.metadata == map[]
  {
    SessionParams("payment", ["card"], [PremiumExport], Interpolate(siteUrl) + "/success",
      Interpolate(siteUrl) + "/cancel", map[])
  }

  /** The route: `secretKey` is `STRIPE_SECRET_KEY` and `siteUrl`
      `NEXT_PUBLIC_SITE_URL`. Returns the reply and the sessions requested. */
  function Post(secretKey: Option<string>, siteUrl: Option<string>, create: CreateSession): (out: (Reply, seq<SessionParams>))
    ensures !Truthy(secretKey) ==> out == (SessionId(DummySessionId), [])
    ensures Truthy(secretKey) ==> out.1 == [Params(siteUrl)]
    ensures Truthy(secretKey) ==>
      match create(Params(siteUrl))
      case Ok(s) => out.0 == SessionId(s.id)
      case Err(_) => out.0 == StripeError
  {
    if !Truthy(secretKey) then (SessionId(DummySessionId), [])
    else
      var params := Params(siteUrl);
      match create(params)
      case Ok(s) => (SessionId(s.id), [params])
      case Err(_) => (StripeError, [params])
  }

  /** 200 unless the provider, once called, fails. */
  lemma PostStatus(secretKey: Option<string>, siteUrl: Option<string>, create: CreateSession)
    ensures Post(secretKey, siteUrl, create).0.Status() == 500 <==> Truthy(secretKey) && create(Params(siteUrl)).Err?
  {
  }
}
