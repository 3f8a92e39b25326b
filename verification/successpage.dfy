/** The purchase confirmation of app/success/page.tsx: `fetchSession` loads
    the Stripe session, then asks the create-share-link route for a link to
    the card; a failure of that second request is not fatal. The outcome of
    each request is an input. */
module SuccessPage {
  import opened Results
  import opened Js
  import opened Purchase
  import ShareToken
  import GetSession

  /** The requests the page sends; the share-link body carries the three
      metadata fields, an absent one being left out of the JSON. */
  datatype Request =
    | GetSessionRequest(sessionId: string)
    | ShareLinkRequest(body: ShareToken.ShareRequest)

  /** The fields of the create-share-link reply the page reads. */
  datatype ShareJson = ShareJson(ok: bool, url: Option<string>)

  /** The JSON body the create-share-link route answers with, as the page
      reads it: only a created link has `ok` and a `url`. */
  function ShareJsonOf(reply: ShareToken.ShareReply): (j: ShareJson)
    ensures j.ok <==> reply.Created?
    ensures reply.Created? ==> j.url == Some(reply.url)
  {
    match reply
    case Created(_, url) => ShareJson(true, Some(url))
    case MissingFields => ShareJson(false, None)
    case Failed => ShareJson(false, None)
  }

  datatype State = State(loading: bool, error: string, data: Option<SessionData>, shareUrl: Option<string>)

  const Initial: State := State(true, "", None, None)

  datatype Run = Run(state: State, requests: seq<Request>)

  const MissingSessionId: string := "Missing session ID."
  const UnableToLoad: string := "Unable to load purchase details."
  const SomethingWentWrong: string := "Something went wrong."

  /** The share-link request body: exactly the session's card key,
      recipient and message. */
  function ShareBody(d: SessionData): (b: ShareToken.ShareRequest)
    ensures b.cardKey == d.cardKey && b.recipient == d.recipient && b.message == d.message
  {
    ShareToken.ShareRequest(d.cardKey, d.recipient, d.message)
  }

  /** One run of the effect for the `session_id` query parameter, given
      what the two requests answer. */
  function Effect(sessionId: Option<string>, s: State, session: Reply<SessionJson>, share: Reply<ShareJson>)
    : (r: Run)
    ensures !r.state.loading
    ensures !Truthy(sessionId) ==> r == Run(s.(error := MissingSessionId, loading := false), [])
    ensures Truthy(sessionId) ==> |r.requests| >= 1 && r.requests[0] == GetSessionRequest(sessionId.value)
    ensures Truthy(sessionId) && session.Json? && !session.body.ok ==>
      r == Run(s.(error := UnableToLoad, loading := false), [GetSessionRequest(sessionId.value)])
    ensures |r.requests| == 2 <==>
      Truthy(sessionId) && session.Json? && session.body.ok && session.body.metadata.Some?
    ensures |r.requests| == 2 ==>
      && r.state.data == Some(BaseData(session.body.metadata.value))
      && r.requests[1] == ShareLinkRequest(ShareBody(r.state.data.value))
      && r.state.error == s.error
    ensures r.state.shareUrl != s.shareUrl ==>
      && |r.requests| == 2 && share.Json? && share.body.ok && Truthy(share.body.url)
      && r.state.shareUrl == share.body.url
    ensures |r.requests| <= 2
  {
    if !Truthy(sessionId) then Run(s.(error := MissingSessionId, loading := false), [])
    else
      var asked := [GetSessionRequest(sessionId.value)];
      match session
      case Threw => Run(s.(error := SomethingWentWrong, loading := false), asked)
      case Json(j) =>
        if !j.ok then Run(s.(error := UnableToLoad, loading := false), asked)
        else
          match j.metadata
          case None => Run(s.(error := SomethingWentWrong, loading := false), asked)
          case Some(md) =>
            var d := BaseData(md);
            var s1 := s.(data := Some(d));
            var s2 :=
              if share.Json? && share.body.ok && Truthy(share.body.url) then s1.(shareUrl := share.body.url)
              else s1;
            Run(s2.(loading := false), asked + [ShareLinkRequest(ShareBody(d))])
  }

  /** A share-link failure, thrown or answered, is not fatal: the card is
      shown all the same, without a link to copy. */
  lemma ShareFailureNotFatal(sessionId: Option<string>, session: Reply<SessionJson>, share: Reply<ShareJson>)
    requires Truthy(sessionId) && session.Json? && session.body.ok && session.body.metadata.Some?
    requires share.Threw? || !share.body.ok || !Truthy(share.body.url)
    ensures var r := Effect(sessionId, Initial, session, share);
      && Render(r.state.loading, r.state.error, r.state.data).CardView?
      && CopyShareLink(r.state.shareUrl).None?
  {
  }

  /** A page that has not loaded the session never asks for a share link
      and shows the reason. */
  lemma NoShareLinkWithoutSession(sessionId: Option<string>, session: Reply<SessionJson>, share: Reply<ShareJson>)
    requires !Truthy(sessionId) || session.Threw? || !session.body.ok
    ensures var r := Effect(sessionId, Initial, session, share);
      && |r.requests| <= 1
      && Render(r.state.loading, r.state.error, r.state.data)
         == ErrorText(if !Truthy(sessionId) then MissingSessionId
                      else if session.Threw? then SomethingWentWrong
                      else UnableToLoad)
  {
  }

  /** A loaded session followed by a created link leaves that link on the
      page. */
  lemma LoadedPageKeepsLink(sessionId: string, loaded: GetSession.Reply, share: ShareToken.ShareReply)
    requires sessionId != "" && loaded.Loaded? && share.Created? && share.url != ""
    ensures Effect(Some(sessionId), Initial, Json(SessionJsonOf(loaded)), Json(ShareJsonOf(share))).state.shareUrl
      == Some(share.url)
  {
  }

  /** The route creates a link for a request with the three fields when
      the secret is configured. */
  lemma ShareLinkCreated(d: SessionData, secret: Option<string>, siteUrl: Option<string>, hmac: ShareToken.Mac)
    requires Truthy(secret)
    requires Truthy(d.cardKey) && Truthy(d.recipient) && Truthy(d.message)
    ensures var share := ShareToken.Post(Some(ShareBody(d)), secret, siteUrl, hmac);
      && share.Created?
      && share.url == ShareToken.Origin(siteUrl) + "/c/"
         + ShareToken.CreateToken(secret.value, ShareToken.Payload(d.cardKey.value, d.recipient.value, d.message.value), hmac)
  {
  }

  /** End to end: when the provider has the session, the session's
      metadata carries a card key, recipient and message, and both secrets
      are configured, the get-session route loads the session and the link
      the page offers for copying is the create-share-link route's URL for
      exactly that payload. */
  lemma SharedLinkIsTokenUrl(
    sessionId: string, stripeKey: Option<string>, retrieve: GetSession.Retrieve,
    secret: Option<string>, siteUrl: Option<string>, hmac: ShareToken.Mac)
    requires sessionId != "" && Truthy(stripeKey) && retrieve(sessionId, GetSession.Expand).Ok?
    requires Truthy(secret)
    requires var d := BaseData(retrieve(sessionId, GetSession.Expand).value.metadata);
      Truthy(d.cardKey) && Truthy(d.recipient) && Truthy(d.message)
    ensures
      var loaded := GetSession.Post(stripeKey, Some(GetSession.Body(Some(sessionId))), retrieve).0;
      var d := BaseData(retrieve(sessionId, GetSession.Expand).value.metadata);
      var share := ShareToken.Post(Some(ShareBody(d)), secret, siteUrl, hmac);
      var r := Effect(Some(sessionId), Initial, Json(SessionJsonOf(loaded)), Json(ShareJsonOf(share)));
      var token := ShareToken.CreateToken(secret.value, ShareToken.Payload(d.cardKey.value, d.recipient.value, d.message.value), hmac);
      CopyShareLink(r.state.shareUrl) == Some(ShareToken.Origin(siteUrl) + "/c/" + token)
  {
    var loaded := GetSession.Post(stripeKey, Some(GetSession.Body(Some(sessionId))), retrieve).0;
    assert loaded.Loaded? && loaded.metadata == retrieve(sessionId, GetSession.Expand).value.metadata;
    var d := BaseData(loaded.metadata);
    ShareLinkCreated(d, secret, siteUrl, hmac);
    LoadedPageKeepsLink(sessionId, loaded, ShareToken.Post(Some(ShareBody(d)), secret, siteUrl, hmac));
  }
}
