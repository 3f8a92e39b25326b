/** The part of the payment provider's API the routes use: the parameters
    of a hosted checkout session, the session the provider returns, and the
    events it posts to the webhook. The provider's behaviour is never
    modelled; each route receives the provider's answers as parameters. */
module Stripe {
  import opened Results

  /** An error a call throws: its class name and its message. */
  datatype Thrown = Thrown(name: string, message: string)

  /** `${err?.message || err}`: the message, or, when it is empty, what
      `Error.prototype.toString` gives for an empty message, the name. */
  function Describe(e: Thrown): (text: string)
    ensures e.message != "" ==> text == e.message
    ensures e.message == "" ==> text == e.name
  {
    if e.message != "" then e.message else e.name
  }

  /** A line item: a catalogue price by id, or an ad-hoc price. */
  datatype LineItem =
    | CatalogPrice(price: string, quantity: int)
    | AdHocPrice(currency: string, productName: string, unitAmount: int, quantity: int)

  /** String-to-string metadata, as the provider stores it. */
  type Metadata = map<string, string>

  /** The parameters of `checkout.sessions.create`. */
  datatype SessionParams = SessionParams(
    mode: string,
    paymentMethodTypes: seq<string>,
    lineItems: seq<LineItem>,
    successUrl: string,
    cancelUrl: string,
    metadata: Metadata)

  /** A checkout session as the provider returns it. */
  datatype Session = Session(id: string, url: Option<string>, amountTotal: Option<int>, metadata: Metadata)

  /** A verified webhook event; only the type and the session id of its
      object are read. */
  datatype Event = Event(eventType: string, sessionId: string)

  /** `checkout.sessions.create`, as an oracle. */
  type CreateSession = SessionParams -> Result<Session, Thrown>
}
