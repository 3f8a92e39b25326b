/** The stateless share link of app/api/create-share-link/route.ts: a token
    `payloadB64 "." sig`, where `payloadB64` is the base64url form of the UTF-8
    bytes of `JSON.stringify({cardKey, recipient, message})` and `sig` the
    base64url form of HMAC-SHA256 (RFC 2104) keyed by the share secret over
    `payloadB64`. The HMAC itself is a parameter: only its 32-byte output
    length is relied on. */
module ShareToken {
  import opened Results
  import opened Bytes
  import opened Js
  import Utf8
  import Base64Url
  import Json

  /** What a share token carries. */
  datatype Payload = Payload(cardKey: string, recipient: string, message: string)

  /** A SHA-256 sized MAC output. */
  type Digest = d: seq<Byte> | |d| == 32 witness seq(32, _ => 0)

  /** HMAC-SHA256 keyed by its first argument over its second (both as
      UTF-8), as `crypto.createHmac("sha256", secret).update(msg).digest()`. */
  type Mac = (string, string) -> Digest

  const CardKeyField: string := "{\"cardKey\":"
  const RecipientField: string := ",\"recipient\":"
  const MessageField: string := ",\"message\":"

  /** `JSON.stringify({cardKey, recipient, message})`: the keys in that
      order, no whitespace. The text reads back as the payload. */
  function PayloadJson(p: Payload): (j: string)
    ensures ParsePayloadJson(j) == Some(p)
  {
    ParseFields(p);
    CardKeyField + Json.Quote(p.cardKey) + RecipientField + Json.Quote(p.recipient)
      + MessageField + Json.Quote(p.message) + "}"
  }

  /** Reads `prefix` followed by a JSON string; returns the string's value
      and the text after it. */
  function ParseField(t: string, prefix: string): Option<(string, string)> {
    if StartsWith(t, prefix + "\"") then Json.ParseString(t[|prefix| + 1..]) else None
  }

  /** Reads back the JSON object `PayloadJson` writes. */
  function ParsePayloadJson(t: string): Option<Payload> {
    match ParseField(t, CardKeyField)
    case None => None
    case Some((cardKey, t1)) =>
      match ParseField(t1, RecipientField)
      case None => None
      case Some((recipient, t2)) =>
        match ParseField(t2, MessageField)
        case None => None
        case Some((message, t3)) =>
          if t3 == "}" then Some(Payload(cardKey, recipient, message)) else None
  }

  lemma ParseFieldQuote(prefix: string, s: string, rest: string)
    ensures ParseField(prefix + Json.Quote(s) + rest, prefix) == Some((s, rest))
  {
    var t := prefix + Json.Quote(s) + rest;
    assert t == (prefix + "\"") + (Json.QuoteBody(s) + "\"" + rest);
    assert t[|prefix| + 1..] == Json.QuoteBody(s) + "\"" + rest;
    Json.ParseQuoteBody(s, rest);
  }

  /** The three fields written one after the other read back as the
      payload. */
  lemma ParseFields(p: Payload)
    ensures ParsePayloadJson(CardKeyField + Json.Quote(p.cardKey) + RecipientField + Json.Quote(p.recipient)
      + MessageField + Json.Quote(p.message) + "}") == Some(p)
  {
    var tail2 := MessageField + Json.Quote(p.message) + "}";
    var tail1 := RecipientField + Json.Quote(p.recipient) + tail2;
    assert CardKeyField + Json.Quote(p.cardKey) + RecipientField + Json.Quote(p.recipient)
      + MessageField + Json.Quote(p.message) + "}" == CardKeyField + Json.Quote(p.cardKey) + tail1;
    ParseFieldQuote(CardKeyField, p.cardKey, tail1);
    ParseFieldQuote(RecipientField, p.recipient, tail2);
    ParseFieldQuote(MessageField, p.message, "}");
  }

  /** `payloadB64`: the first segment of a token. It decodes to the UTF-8
      bytes of the payload's JSON text and holds no `.`. */
  function PayloadSegment(p: Payload): (seg: string)
    ensures Base64Url.Decode(seg) == Some(Utf8.Encode(PayloadJson(p)))
    ensures '.' !in seg
  {
    Base64Url.DecodeEncode(Utf8.Encode(PayloadJson(p)));
    Base64Url.NoDotInEncoding(Utf8.Encode(PayloadJson(p)));
    Base64Url.Encode(Utf8.Encode(PayloadJson(p)))
  }

  /** Two dot-free segments joined by one `.` hold exactly one `.` and
      split back into the two segments. */
  lemma JoinedSegments(a: string, b: string)
    requires '.' !in a && '.' !in b
    ensures multiset(a + "." + b)['.'] == 1
    ensures Split(a + "." + b, '.') == [a, b]
  {
    SplitTwo(a, b, '.');
    assert multiset(a + "." + b) == multiset(a) + multiset(".") + multiset(b);
    assert multiset(a)['.'] == 0 && multiset(b)['.'] == 0;
  }

  /** `createShareToken` once the secret is known. The token holds exactly
      one `.`, splitting on it gives back the two segments, and the first
      decodes to exactly the UTF-8 bytes of the payload's JSON. */
  function CreateToken(secret: string, p: Payload, hmac: Mac): (token: string)
    ensures multiset(token)['.'] == 1
    ensures Split(token, '.') == [PayloadSegment(p), Base64Url.Encode(hmac(secret, PayloadSegment(p)))]
    ensures Base64Url.Decode(Split(token, '.')[0]) == Some(Utf8.Encode(PayloadJson(p)))
    ensures |token| == |PayloadSegment(p)| + 44
  {
    var payloadB64 := PayloadSegment(p);
    var sig := Base64Url.Encode(hmac(secret, payloadB64));
    Base64Url.NoDotInEncoding(hmac(secret, payloadB64));
    JoinedSegments(payloadB64, sig);
    payloadB64 + "." + sig
  }

  /** Different payloads never share a first token segment: the segment
      determines the card key, recipient and message. */
  lemma PayloadSegmentInjective(p: Payload, q: Payload)
    requires PayloadSegment(p) == PayloadSegment(q)
    ensures p == q
  {
    Utf8.EncodeInjective(PayloadJson(p), PayloadJson(q));
  }

  /** `getShareSecret`: the configured secret, or the error it throws when
      the variable is unset or empty. */
  function GetShareSecret(env: Option<string>): (r: Result<string, string>)
    ensures r.Ok? <==> Truthy(env)
    ensures r.Ok? ==> r.value == env.value
  {
    if Truthy(env) then Ok(env.value) else Err("CARDROOTS_SHARE_SECRET is not set")
  }

  /** The fields of the request body, each None when absent. Only string
      values are modelled. */
  datatype ShareRequest = ShareRequest(cardKey: Option<string>, recipient: Option<string>, message: Option<string>)

  /** The route's answers: 200 `{ok: true, shareId, url}`, 400 `{error:
      "Missing cardKey, recipient, or message"}`, or 500 `{ok: false, error:
      "Failed to create share link"}`. */
  datatype ShareReply = Created(shareId: string, url: string) | MissingFields | Failed {
    function Status(): int {
      match this
      case Created(_, _) => 200
      case MissingFields => 400
      case Failed => 500
    }
  }

  const DefaultOrigin: string := "http://localhost:3000"

  /** `NEXT_PUBLIC_SITE_URL?.replace(/\/$/, "") || "http://localhost:3000"`:
      one trailing slash is removed first, then an empty result falls back. */
  function Origin(siteUrl: Option<string>): (origin: string)
    ensures siteUrl.Some? && StripTrailingSlash(siteUrl.value) != "" ==> origin == StripTrailingSlash(siteUrl.value)
    ensures siteUrl.None? || StripTrailingSlash(siteUrl.value) == "" ==> origin == DefaultOrigin
  {
    Or(if siteUrl.Some? then Some(StripTrailingSlash(siteUrl.value)) else None, DefaultOrigin)
  }

  predicate ValidRequest(r: ShareRequest) {
    Truthy(r.cardKey) && Truthy(r.recipient) && Truthy(r.message)
  }

  /** `POST /api/create-share-link`. `body` is None when the request body is
      not JSON. The fields are checked before the secret is looked up. */
  function Post(body: Option<ShareRequest>, shareSecret: Option<string>, siteUrl: Option<string>, hmac: Mac)
    : (reply: ShareReply)
    ensures body.Some? && !ValidRequest(body.value) ==> reply == MissingFields
    ensures reply.Created? <==> body.Some? && ValidRequest(body.value) && Truthy(shareSecret)
    ensures reply.Created? ==>
      var p := Payload(body.value.cardKey.value, body.value.recipient.value, body.value.message.value);
      && reply.shareId == CreateToken(shareSecret.value, p, hmac)
      && reply.url == Origin(siteUrl) + "/c/" + reply.shareId
  {
    match body
    case None => Failed
    case Some(req) =>
      if !ValidRequest(req) then MissingFields
      else
        match GetShareSecret(shareSecret)
        case Err(_) => Failed
        case Ok(secret) =>
          var token := CreateToken(secret, Payload(req.cardKey.value, req.recipient.value, req.message.value), hmac);
          Created(token, Origin(siteUrl) + "/c/" + token)
  }

  /** The status codes of the route: 400 for incomplete input whatever the
      configuration, 500 for a missing secret only once the input is
      complete, or for a body that is not JSON. */
  lemma PostStatus(body: Option<ShareRequest>, shareSecret: Option<string>, siteUrl: Option<string>, hmac: Mac)
    ensures body.Some? && !ValidRequest(body.value) ==> Post(body, shareSecret, siteUrl, hmac).Status() == 400
    ensures body.Some? && ValidRequest(body.value) && !Truthy(shareSecret)
      ==> Post(body, shareSecret, siteUrl, hmac).Status() == 500
    ensures body.None? ==> Post(body, shareSecret, siteUrl, hmac).Status() == 500
  {
  }
}
