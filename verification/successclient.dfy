/** The purchase confirmation of app/success/SuccessClient.tsx: the effect
    that loads the Stripe session, asks once for the card to be stored and
    then once for its tree certificate. The outcome of each request is an
    input; the result is the page state and the requests made, in order. */
module SuccessClient {
  import opened Results
  import opened Js
  import opened Purchase

  /** The requests the page sends. */
  datatype Request =
    | GetSessionRequest(sessionId: string)
    | CreateCardRequest(sessionId: string)
    | CreateCertificateRequest(shareId: string)

  /** The fields of the `/api/cards/create` reply the page reads. */
  datatype CardJson = CardJson(ok: bool, shareUrl: Option<string>, shareId: Option<string>, error: Option<string>)

  /** The fields of the `/api/certificates/create` reply the page reads. */
  datatype CertJson = CertJson(ok: bool, error: Option<string>)

  /** The component's state and its two refs, `cardCreatedRef` and
      `certRequestedRef`, which survive re-runs of the effect. */
  datatype State = State(
    loading: bool,
    error: string,
    data: Option<SessionData>,
    shareUrl: Option<string>,
    shareId: Option<string>,
    cardCreateError: Option<string>,
    certificateError: Option<string>,
    creatingCard: bool,
    creatingCertificate: bool,
    cardCreated: bool,
    certRequested: bool)

  /** The state on mount. */
  const Initial: State := State(true, "", None, None, None, None, None, false, false, false, false)

  /** What each request of one run of the effect answers with. A reply is
      only consulted if its request is made. */
  datatype Replies = Replies(session: Reply<SessionJson>, card: Reply<CardJson>, cert: Reply<CertJson>)

  /** A run's final state and the requests it made, in order. */
  datatype Run = Run(state: State, requests: seq<Request>)

  const NoSessionId: string := "No session ID provided"
  const UnableToLoad: string := "Unable to load purchase details."
  const FailedToLoad: string := "Failed to load session"
  const FailedCard: string := "Failed to create card"
  const FailedCertificate: string := "Failed to create certificate"

  /** The certificate request and its outcome: `certificateError` is the
      reply's error (or the fixed text) when the reply is not `ok` or the
      request throws. */
  function RequestCertificate(s: State, cert: Reply<CertJson>): (s': State)
    ensures s'.certificateError.None? <==> cert.Json? && cert.body.ok
    ensures cert.Json? && !cert.body.ok ==> s'.certificateError == Some(Or(cert.body.error, FailedCertificate))
    ensures cert.Threw? ==> s'.certificateError == Some(FailedCertificate)
    ensures s' == s.(certificateError := s'.certificateError, creatingCertificate := false)
  {
    match cert
    case Threw => s.(certificateError := Some(FailedCertificate), creatingCertificate := false)
    case Json(r) =>
      if !r.ok then s.(certificateError := Some(Or(r.error, FailedCertificate)), creatingCertificate := false)
      else s.(certificateError := None, creatingCertificate := false)
  }

  /** The card request once the guard has been set, and what follows it. */
  function RequestCard(sessionId: string, s: State, replies: Replies): (r: Run)
    requires s.cardCreated
    ensures |r.requests| >= 1 && r.requests[0] == CreateCardRequest(sessionId)
    ensures |r.requests| <= 2
    ensures r.state.cardCreated && r.state.certRequested == (s.certRequested || |r.requests| == 2)
    ensures |r.requests| == 2 <==>
      && replies.card.Json? && replies.card.body.ok && Truthy(replies.card.body.shareUrl)
      && !s.certRequested && Truthy(replies.card.body.shareId)
    ensures |r.requests| == 2 ==> r.requests[1] == CreateCertificateRequest(replies.card.body.shareId.value)
    ensures r.state.cardCreateError.None? <==>
      replies.card.Json? && replies.card.body.ok && Truthy(replies.card.body.shareUrl)
    ensures r.state.cardCreateError.None? ==>
      r.state.shareUrl == replies.card.body.shareUrl && r.state.shareId == replies.card.body.shareId
    ensures r.state.cardCreateError.Some? ==>
      && r.state.shareUrl == s.shareUrl && r.state.shareId == s.shareId
      && r.state.certificateError == s.certificateError
      && r.state.cardCreateError.value == (if replies.card.Threw? then FailedCard else Or(replies.card.body.error, FailedCard))
    ensures !r.state.creatingCard && r.state.loading == s.loading && r.state.data == s.data && r.state.error == s.error
  {
    var s0 := s.(creatingCard := true, cardCreateError := None);
    var created := [CreateCardRequest(sessionId)];
    match replies.card
    case Threw => Run(s0.(cardCreateError := Some(FailedCard), creatingCard := false), created)
    case Json(c) =>
      if c.ok && Truthy(c.shareUrl) then
        var s1 := s0.(shareUrl := c.shareUrl, shareId := c.shareId);
        if !s1.certRequested && Truthy(c.shareId) then
          var s2 := s1.(certRequested := true, creatingCertificate := true, certificateError := None);
          Run(RequestCertificate(s2, replies.cert).(creatingCard := false),
              created + [CreateCertificateRequest(c.shareId.value)])
        else Run(s1.(creatingCard := false), created)
      else Run(s0.(cardCreateError := Some(Or(c.error, FailedCard)), creatingCard := false), created)
  }

  /** `loadSession` for a present session id. */
  function LoadSession(sessionId: string, s: State, replies: Replies): (r: Run)
    ensures |r.requests| >= 1 && r.requests[0] == GetSessionRequest(sessionId)
    ensures !r.state.loading
    ensures replies.session.Threw? ==> r == Run(s.(error := FailedToLoad, loading := false), [GetSessionRequest(sessionId)])
    ensures replies.session.Json? && !replies.session.body.ok ==>
      r == Run(s.(error := UnableToLoad, loading := false), [GetSessionRequest(sessionId)])
    ensures |r.requests| >= 2 ==>
      && !s.cardCreated && r.requests[1] == CreateCardRequest(sessionId)
      && replies.session.Json? && replies.session.body.ok && replies.session.body.metadata.Some?
  {
    var asked := [GetSessionRequest(sessionId)];
    match replies.session
    case Threw => Run(s.(error := FailedToLoad, loading := false), asked)
    case Json(j) =>
      if !j.ok then Run(s.(error := UnableToLoad, loading := false), asked)
      else
        match j.metadata
        case None => Run(s.(error := FailedToLoad, loading := false), asked)
        case Some(md) =>
          var s1 := s.(data := Some(BaseData(md)));
          if s1.cardCreated then Run(s1.(loading := false), asked)
          else
            var r := RequestCard(sessionId, s1.(cardCreated := true), replies);
            Run(r.state.(loading := false), asked + r.requests)
  }

  /** One run of the effect, for the `session_id` query parameter. */
  function Effect(sessionId: Option<string>, s: State, replies: Replies): (r: Run)
    ensures !r.state.loading
    ensures !Truthy(sessionId) ==> r == Run(s.(error := NoSessionId, loading := false), [])
    ensures Truthy(sessionId) ==> r == LoadSession(sessionId.value, s, replies)
  {
    if !Truthy(sessionId) then Run(s.(error := NoSessionId, loading := false), [])
    else LoadSession(sessionId.value, s, replies)
  }

  /** How many requests of each kind were made. */
  function CardRequests(reqs: seq<Request>): nat
    decreases |reqs|
  {
    if |reqs| == 0 then 0
    else (if reqs[0].CreateCardRequest? then 1 else 0) + CardRequests(reqs[1..])
  }

  function CertificateRequests(reqs: seq<Request>): nat
    decreases |reqs|
  {
    if |reqs| == 0 then 0
    else (if reqs[0].CreateCertificateRequest? then 1 else 0) + CertificateRequests(reqs[1..])
  }

  lemma {:induction false} RequestsAppend(a: seq<Request>, b: seq<Request>)
    ensures CardRequests(a + b) == CardRequests(a) + CardRequests(b)
    ensures CertificateRequests(a + b) == CertificateRequests(a) + CertificateRequests(b)
    decreases |a|
  {
    if |a| > 0 {
      assert (a + b)[1..] == a[1..] + b;
      RequestsAppend(a[1..], b);
    } else {
      assert a + b == b;
    }
  }

  /** Within one run, the card is asked for only while the card guard is
      unset, and the certificate only while its guard is unset, each at
      most once; a request sets its guard, and no guard is ever cleared. */
  lemma EffectGuards(sessionId: Option<string>, s: State, replies: Replies)
    ensures var r := Effect(sessionId, s, replies);
      && CardRequests(r.requests) <= (if s.cardCreated then 0 else 1)
      && CertificateRequests(r.requests) <= (if s.certRequested then 0 else 1)
      && (s.cardCreated || CardRequests(r.requests) == 1 ==> r.state.cardCreated)
      && (s.certRequested || CertificateRequests(r.requests) == 1 ==> r.state.certRequested)
  {
    var r := Effect(sessionId, s, replies);
    if Truthy(sessionId) && |r.requests| >= 2 {
      var id := sessionId.value;
      var md := replies.session.body.metadata.value;
      var c := RequestCard(id, s.(data := Some(BaseData(md))).(cardCreated := true), replies);
      assert r.requests == [GetSessionRequest(id)] + c.requests;
      RequestsAppend([GetSessionRequest(id)], c.requests);
      if |c.requests| == 2 {
        assert c.requests == [c.requests[0]] + [c.requests[1]];
        RequestsAppend([c.requests[0]], [c.requests[1]]);
      } else {
        assert c.requests == [c.requests[0]];
      }
    } else {
      assert r.requests == [] || r.requests == [r.requests[0]];
    }
  }

  /** Successive runs of the effect in one mounted component (React may run
      it again, and it re-runs when the session id changes); the refs
      persist from run to run. */
  function Runs(s: State, runs: seq<(Option<string>, Replies)>): (r: Run)
    decreases |runs|
  {
    if |runs| == 0 then Run(s, [])
    else
      var first := Effect(runs[0].0, s, runs[0].1);
      var rest := Runs(first.state, runs[1..]);
      Run(rest.state, first.requests + rest.requests)
  }

  /** However often the effect runs, the card is requested at most once and
      the certificate at most once per mounted component. */
  lemma {:induction false} OncePerMount(s: State, runs: seq<(Option<string>, Replies)>)
    ensures CardRequests(Runs(s, runs).requests) <= (if s.cardCreated then 0 else 1)
    ensures CertificateRequests(Runs(s, runs).requests) <= (if s.certRequested then 0 else 1)
    ensures s.cardCreated ==> Runs(s, runs).state.cardCreated
    ensures s.certRequested ==> Runs(s, runs).state.certRequested
    decreases |runs|
  {
    if |runs| > 0 {
      var first := Effect(runs[0].0, s, runs[0].1);
      EffectGuards(runs[0].0, s, runs[0].1);
      OncePerMount(first.state, runs[1..]);
      RequestsAppend(first.requests, Runs(first.state, runs[1..]).requests);
    }
  }

  /** From mount: at most one card request and one certificate request. */
  lemma OncePerMountFromStart(runs: seq<(Option<string>, Replies)>)
    ensures CardRequests(Runs(Initial, runs).requests) <= 1
    ensures CertificateRequests(Runs(Initial, runs).requests) <= 1
  {
    OncePerMount(Initial, runs);
  }

  /** On the first run after mount, the certificate is requested exactly
      when the card request came back `ok` with a share URL and a share id,
      and then for that share id; a certificate failure keeps the share
      link. */
  lemma FirstRunCertificate(sessionId: string, replies: Replies)
    requires sessionId != ""
    requires replies.session.Json? && replies.session.body.ok && replies.session.body.metadata.Some?
    ensures var r := Effect(Some(sessionId), Initial, replies);
      && r.requests[..2] == [GetSessionRequest(sessionId), CreateCardRequest(sessionId)]
      && (CertificateRequests(r.requests) == 1 <==>
           replies.card.Json? && replies.card.body.ok
           && Truthy(replies.card.body.shareUrl) && Truthy(replies.card.body.shareId))
      && (CertificateRequests(r.requests) == 1 ==>
           && r.requests == [GetSessionRequest(sessionId), CreateCardRequest(sessionId),
                             CreateCertificateRequest(replies.card.body.shareId.value)]
           && r.state.shareUrl == replies.card.body.shareUrl
           && r.state.shareId == replies.card.body.shareId)
  {
    var r := Effect(Some(sessionId), Initial, replies);
    var md := replies.session.body.metadata.value;
    var c := RequestCard(sessionId, Initial.(data := Some(BaseData(md))).(cardCreated := true), replies);
    assert r.requests == [GetSessionRequest(sessionId)] + c.requests;
    RequestsAppend([GetSessionRequest(sessionId)], c.requests);
    if |c.requests| == 2 {
      assert c.requests == [c.requests[0]] + [c.requests[1]];
      RequestsAppend([c.requests[0]], [c.requests[1]]);
    } else {
      assert c.requests == [c.requests[0]];
    }
  }

  /** `copyShareLink` writes the share link the card request returned, and
      nothing before one is known. */
  function Copy(s: State): (written: Option<string>)
    ensures written.Some? <==> Truthy(s.shareUrl)
    ensures written.Some? ==> written.value == s.shareUrl.value
  {
    CopyShareLink(s.shareUrl)
  }

  /** What the page shows once a run is over. */
  function View(s: State): Screen {
    Render(s.loading, s.error, s.data)
  }

  /** A run that could not load the session shows its error, never the
      card. */
  lemma FailedLoadShowsError(sessionId: Option<string>, s: State, replies: Replies)
    requires !Truthy(sessionId) || replies.session.Threw? || !replies.session.body.ok
    ensures var r := Effect(sessionId, s, replies);
      View(r.state) == ErrorText(if !Truthy(sessionId) then NoSessionId
                                 else if replies.session.Threw? then FailedToLoad
                                 else UnableToLoad)
  {
  }
}
