/** What the two success pages (app/success/SuccessClient.tsx and
    app/success/page.tsx) share: how a request's outcome reaches them, the
    get-session reply as they read it, the purchase data they keep, the
    screen they render and the copy-link guard. */
module Purchase {
  import opened Results
  import opened Js
  import Stripe
  import GetSession
  import CardVideo

  /** The outcome of `await fetch(...)` followed by `await res.json()`:
      either step may throw (no network, a body that is not JSON), or the
      parsed body is available. */
  datatype Reply<+T> = Threw | Json(body: T)

  /** The parts of the get-session reply the pages read: `json.ok`, and
      `json.session.metadata`, None when `session` or its `metadata` is
      missing, so that reading a field of it throws. */
  datatype SessionJson = SessionJson(ok: bool, metadata: Option<Stripe.Metadata>)

  /** The JSON body the get-session route answers with, as a page reads it. */
  function SessionJsonOf(reply: GetSession.Reply): (j: SessionJson)
    ensures j.ok <==> reply.Loaded?
  {
    match reply
    case Loaded(_, _, md) => SessionJson(true, Some(md))
    case Failure(_, _) => SessionJson(false, None)
  }

  /** `SessionData`: the three metadata fields, each absent when the
      session's metadata lacks it. */
  datatype SessionData = SessionData(cardKey: Option<string>, recipient: Option<string>, message: Option<string>)

  /** `md[name]`: absent keys read as `undefined`. */
  function Field(md: Stripe.Metadata, name: string): (v: Option<string>)
    ensures v.Some? <==> name in md
    ensures v.Some? ==> v.value == md[name]
  {
    if name in md then Some(md[name]) else None
  }

  /** `baseData`: the metadata's `cardKey`, `recipient` and `message`
      entries, each present exactly when the metadata has that key, and
      then with the metadata's value. */
  function BaseData(md: Stripe.Metadata): (d: SessionData)
    ensures d.cardKey.Some? <==> "cardKey" in md
    ensures d.recipient.Some? <==> "recipient" in md
    ensures d.message.Some? <==> "message" in md
    ensures d.cardKey.Some? ==> d.cardKey.value == md["cardKey"]
    ensures d.recipient.Some? ==> d.recipient.value == md["recipient"]
    ensures d.message.Some? ==> d.message.value == md["message"]
  {
    SessionData(Field(md, "cardKey"), Field(md, "recipient"), Field(md, "message"))
  }

  /** What a success page shows, in the order it decides: the loading
      notice, then a non-empty error, then "No data found.", then the card
      with its video. */
  datatype Screen =
    | Loading
    | ErrorText(text: string)
    | NoData
    | CardView(videoSrc: string, recipient: Option<string>, message: Option<string>)

  function Render(loading: bool, error: string, data: Option<SessionData>): (sc: Screen)
    ensures sc.CardView? <==> !loading && error == "" && data.Some?
    ensures sc.CardView? ==> sc.videoSrc == CardVideo.VideoSrc(data.value.cardKey)
    ensures sc.ErrorText? ==> sc.text == error
  {
    if loading then Loading
    else if error != "" then ErrorText(error)
    else if data.None? then NoData
    else CardView(CardVideo.VideoSrc(data.value.cardKey), data.value.recipient, data.value.message)
  }

  /** `copyShareLink`: the text written to the clipboard, None when no
      share link is known yet (an alert is shown instead). */
  function CopyShareLink(shareUrl: Option<string>): (written: Option<string>)
    ensures written.Some? <==> Truthy(shareUrl)
    ensures written.Some? ==> written.value == shareUrl.value
  {
    if !Truthy(shareUrl) then None else Some(shareUrl.value)
  }
}
