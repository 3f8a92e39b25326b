# living-cards: payment-to-fulfilment core in Dafny

This project models the server and client logic of the living-cards storefront. The storefront sells personalised video greeting cards through Stripe checkout, stores the purchased card and hands out share links. The model covers:

- **Card gateway** (`Cards`, `CardStore`; lib/db/cards.ts).
  - The `Card` table is a sequence of rows with unique share ids and session ids.
  - Every call to it is recorded in a trace.
  - What the database and the environment decide is read from an oracle: the ids `nanoid(10)` draws, a new row's id and timestamps, a call that throws, and a row another writer commits just before a call.
  - Modelled operations: `generateShareId`, `createCard` with its idempotency check and its P2002 (unique-constraint) recovery, `getCardByShareId` and `prismaCardToCard`.
- **Stateless share links** (`ShareToken`; app/api/create-share-link/route.ts).
  - A token is `payloadB64 "." sig`.
  - It is built from UTF-8 (`Utf8`), unpadded base64url as in section 5 of RFC 4648 (`Base64Url`), and the `JSON.stringify` rendering of the three-field payload (`Json`).
  - HMAC-SHA256 (RFC 2104) is a parameter that returns 32 bytes.
  - Each encoder is paired with a decoder, and the round trips are proved.
- **Payment routes.**
  - The webhook (`Webhook`, with the `cardOrder` table in `Orders`).
  - `create-checkout-session` (`CheckoutSession`), `get-session` (`GetSession`) and `checkout` (`Checkout`).
  - The provider's answers are parameters (`Stripe`).
- **The two success pages** (`SuccessClient`, `SuccessPage`, sharing `Purchase` and `CardVideo`).
  - Each run of the page effect is a function from the fetch outcomes to the final state and the requests made, in order.
  - The once-per-mount guards are proved over any number of effect runs.
- **The catalogue** (`Catalogue`; app/page.tsx): `getCategory`, the category-then-title sort and the selected-card lookup.
- **The sitemap** (`Sitemap`; app/sitemap.ts).

JavaScript semantics the code relies on are written out in `Js`:
- truthiness and `||`;
- `${undefined}` interpolating as `"undefined"`;
- `replace(/\/$/, "")`, `includes`, ASCII `toLowerCase` and `split`.

Three facts about the payment flow, as the code has it:
- **Checkout session metadata.** The checkout session's metadata holds only `orderId` (`CheckoutSession.Params`). The card key, recipient and message are not on it.
- **Webhook.** The webhook only flags the session's `cardOrder` rows as paid. It creates no card and sends no e-mail (`Webhook.Post`).
- **Card creation.** Cards are created by `createCard` when the success page calls `/api/cards/create`.

## Model

| member | source | states |
|---|---|---|
| Cards.ToCard | lib/db/cards.ts:44-59 | Each column goes to the field of the same name. The planted date is its ISO text, or null when there is none or its rendering is empty. The creation and update dates are their ISO text |
| Cards.ToCardKeepsColumns | lib/db/cards.ts:44-59 | Two rows that give the same card agree on every column except the three dates |
| Cards.IsoOrNull | lib/db/cards.ts:56 | `date?.toISOString() \|\| null` is null exactly when there is no date or its rendering is empty, and otherwise it is the ISO text |
| Cards.Attempt | lib/db/cards.ts:67-85 | One iteration onward of the retry loop: at least one and at most `maxRetries - attempt` draws while attempts remain, none after; exactly one `findUnique` per draw, in the order drawn, and nothing else; the fallback error exactly when no attempt remains |
| Cards.AttemptFree | lib/db/cards.ts:75-77 | A returned id is the last one drawn, and no row held it when it was looked up |
| Cards.AttemptExhausted | lib/db/cards.ts:80-84 | The loop gives up only after one draw per remaining attempt, every id drawn held by a row, and reports `maxRetries` attempts |
| Cards.AttemptCrash | lib/db/cards.ts:71-73 | A database error is the failure of the last lookup made, passed on unchanged |
| Cards.GenerateShareId | lib/db/cards.ts:66-89 | Lookups only, at most `maxRetries` of them, one per drawn id; the fallback error exactly when `maxRetries` is 0; every error is a lookup failure, exhaustion or the fallback |
| Cards.GenerateShareIdFree | lib/db/cards.ts:66-77 | An Ok id is the last one drawn and no row holds it |
| Cards.GenerateShareIdExhausted | lib/db/cards.ts:66-84 | Exhaustion is reported after exactly `maxRetries` draws, all of them held by rows |
| Cards.GenerateShareIdUncontended | lib/db/cards.ts:66-77 | With a free first id and a lookup that goes through, that id is returned after one lookup and the table is unchanged |
| Cards.ExhaustedMessage | lib/db/cards.ts:79-83 | When `createCard`'s draw gives up, the message reads "Failed to generate unique share_id after 5 attempts" |
| Cards.MessagesDistinct | lib/db/cards.ts:81-186 | The gateway's own errors (exhausted for each attempt count, the fallback, the failed retry, the unretrievable race row) all have different messages |
| Js.DecimalText | lib/db/cards.ts:82 | `${maxRetries}`: decimal digits without leading zeros that read back as the number |
| Cards.Insert | lib/db/cards.ts:124-135 | One `create` of the request's row with the drawn id; a created card is the table's card for the session and carries the request's fields; a clash on the session id means a row already holds that session |
| Cards.InsertOrRecover | lib/db/cards.ts:124-193 | Insert; a created card is returned as it is, and a failed insert goes to the catch with its error. At most two inserts; an Ok card is the table's card for the session; never "could not be retrieved", because the clash that leads there leaves a row for the session |
| Cards.CreateFresh | lib/db/cards.ts:121-193 | Draw an id, insert, recover: the table only grows, at most two inserts, an Ok card is the table's card for the session |
| Cards.InsertRetried | lib/db/cards.ts:158-173 | Exactly one insert, with an id no row held; it succeeds exactly when that `create` does, and the card is then the table's card for the session, built from the request; any failure becomes RetryFailed |
| Cards.RetryWithNewShareId | lib/db/cards.ts:153-174 | A failed draw is passed on unchanged with no insert. After a successful draw: exactly one insert, with an id not held before; success exactly when that `create` succeeds, the card then being the table's card for the session built from the request; any failure becomes RetryFailed |
| Cards.RefetchAfterRace | lib/db/cards.ts:175-187 | A single `findFirst`; the card returned is the table's card for the session; "could not be retrieved" only when no row has the session |
| Cards.Recover | lib/db/cards.ts:141-193 | A P2002 whose first target is `shareId` retries with a new id, one whose first target is `stripeSessionId` refetches the session's card, any other error is rethrown unchanged with the table untouched |
| Cards.CreateCard | lib/db/cards.ts:95-194 | The table only grows and keeps its constraints; an Ok card is the table's card for the session, and a freshly inserted one carries the request's fields, a 10-character share id and empty tree columns; at most two inserts; never "could not be retrieved"; a failing first lookup is rethrown |
| Cards.CreateCardExisting | lib/db/cards.ts:109-119 | With a card for the session already stored, `createCard` returns it after one lookup, inserts nothing and leaves the table as it was |
| Cards.CreateCardTwice | lib/db/cards.ts:95-194 | A second call for the same session returns the same card and inserts nothing, whatever its other fields say |
| Cards.CreatedCardIsTheOnlyOne | lib/db/cards.ts:95-194 | Any row carrying the session id after a successful call is the returned card: exactly one card per session |
| Cards.CreateCardUncontended | lib/db/cards.ts:110-140 | Without contention: one session lookup, one share-id lookup, one insert of the request's row, and that row is returned |
| Cards.CreateCardSessionRace | lib/db/cards.ts:110-187 | When another writer commits a card for the same session just before the insert, the insert clashes on the session id and `createCard` returns that writer's card; the calls are the session lookup, the id lookup, one `create` and the refetch |
| Cards.CreateFreshSessionRace | lib/db/cards.ts:121-187 | The same race from the drawing of the id on: one id lookup, the clashing `create`, the refetch, and the other writer's card |
| Cards.InsertOrRecoverSessionRace | lib/db/cards.ts:124-187 | An insert that meets the racing card for its session is followed by exactly one refetch, which returns that card |
| Cards.InsertMeetsSessionRace | lib/db/cards.ts:124-141 | The racing card is admitted to the table and the insert fails with P2002 on `stripeSessionId` |
| Cards.GetCardByShareId | lib/db/cards.ts:200-218 | One lookup; a card exactly when the lookup succeeds and a row holds the id, and then it is that row's card; null both when no row matches and when the store throws |
| Cards.CreatedCardResolves | lib/db/cards.ts:95-218 | Looking up a created card's share id afterwards returns that same card |
| CardStore.FindBySession | lib/db/cards.ts:110-112 | `findFirst` finds a row exactly when one has the session id, and returns a row of the table with that id |
| CardStore.FindByShareId | lib/db/cards.ts:71-73 | `findUnique` finds a row exactly when one has the share id, and returns a row of the table with that id |
| CardStore.FindFirst | lib/db/cards.ts:110-112 | One recorded `findFirst` call; it throws exactly when the call fails, and otherwise returns the table's first row with the session id, a row committed just before included |
| CardStore.FindUnique | lib/db/cards.ts:71-73 | One recorded `findUnique` call; it throws exactly when the call fails, and otherwise returns the row holding the share id, a row committed just before included |
| CardStore.CreateRow | lib/db/cards.ts:125-134 | `create` appends the row with the request's columns, unless the call throws or a unique constraint would break; the P2002 target names the clashing column |
| ShareToken.GetShareSecret | app/api/create-share-link/route.ts:6-12 | The secret is returned exactly when the variable is set and non-empty; otherwise the route's error is thrown |
| ShareToken.CreateToken | app/api/create-share-link/route.ts:14-27 | The token holds exactly one `.`; splitting on it gives the base64url payload and signature segments; the first segment decodes to exactly the UTF-8 bytes of the payload's JSON |
| ShareToken.PayloadJson | app/api/create-share-link/route.ts:17 | The `JSON.stringify` text of a payload reads back as that payload |
| ShareToken.PayloadSegment | app/api/create-share-link/route.ts:17-18 | The first token segment decodes to exactly the UTF-8 bytes of the payload's JSON text, and holds no `.` |
| ShareToken.PayloadSegmentInjective | app/api/create-share-link/route.ts:17-18 | Different payloads never give the same first token segment |
| ShareToken.Origin | app/api/create-share-link/route.ts:42-43 | One trailing slash is stripped first; an unset or then-empty site URL falls back to `http://localhost:3000` |
| ShareToken.Post | app/api/create-share-link/route.ts:29-55 | Incomplete fields give MissingFields; a link is created exactly for a complete body and a configured secret; its `shareId` is the token of those three fields and its URL is origin + `/c/` + token |
| ShareToken.PostStatus | app/api/create-share-link/route.ts:29-55 | 400 for incomplete fields whatever the configuration; 500 for a missing secret only once the fields are complete, or for a body that is not JSON |
| Base64Url.Encode | app/api/create-share-link/route.ts:18 | Four characters per three bytes and two or three for a final one or two, with no padding |
| Base64Url.SextetsGroup | app/api/create-share-link/route.ts:18 | Joining four 6-bit values into three bytes and cutting them again gives the values back |
| Base64Url.DecodeValuesEncodeValues | app/api/create-share-link/route.ts:18 | Bytes survive the trip through their 6-bit values, final short group included |
| Base64Url.EncodeValuesDecodeValues | app/api/create-share-link/route.ts:18 | 6-bit values that decode are exactly the values of the bytes they decode to |
| Base64Url.ValuesChars | app/api/create-share-link/route.ts:18 | Characters of 6-bit values are in the alphabet and map back to the same values |
| Base64Url.CharsValues | app/api/create-share-link/route.ts:18 | Text in the alphabet is the characters of its values |
| Base64Url.DecodeEncode | app/api/create-share-link/route.ts:18 | Decoding the unpadded base64url encoding of any bytes gives back those bytes |
| Base64Url.EncodeDecode | app/api/create-share-link/route.ts:18 | A string the strict decoder accepts is exactly the encoding of what it decodes to |
| Base64Url.NoDotInEncoding | app/api/create-share-link/route.ts:18-25 | No encoding contains `.`, so the separator is unambiguous |
| Utf8.Encode | app/api/create-share-link/route.ts:18 | `Buffer.from(json)`: between one and four bytes per character |
| Utf8.DecodeEncode | app/api/create-share-link/route.ts:18 | `Buffer.from(json)` as UTF-8: decoding the encoding of a string gives the string back |
| Json.ParseQuoteBody | app/api/create-share-link/route.ts:17 | Parsing the body of a `JSON.stringify` string literal gives back the string and the text that follows it |
| Json.EscapeChar | app/api/create-share-link/route.ts:17 | A character is written as itself, or as an escape of at most six characters that starts with a backslash. It is never a bare quote, so the literal cannot end early |
| Json.Quote | app/api/create-share-link/route.ts:17 | A JSON string literal starts and ends with a quote. After the opening quote it reads back as exactly the string and ends at the closing quote, so no two strings share one |
| Stripe.Describe | app/api/stripe-webhook/route.ts:26 | `err?.message \|\| err` shows the message when it is non-empty, and the error's name otherwise |
| Orders.MarkPaid | app/api/stripe-webhook/route.ts:17-20 | Exactly the session's orders become paid; an order is paid afterwards iff it was paid or belongs to the session; nothing but the paid flag changes |
| Orders.MarkPaidIdempotent | app/api/stripe-webhook/route.ts:17-20 | Marking a session paid twice is marking it once |
| Orders.MarkPaidCommutes | app/api/stripe-webhook/route.ts:17-20 | Completed events for two sessions leave the same table in either order |
| Orders.SetSessionId | app/api/create-checkout-session/route.ts:48-51 | The order with the id gets the session id; every other order is unchanged |
| Webhook.Post | app/api/stripe-webhook/route.ts:6-28 | A missing header or secret reaches verification as ""; failed verification gives 400 with the error text and no change; a completed event marks the session's orders paid and answers `{"received":true}`; any other type gives 200 and no change; an update failure is also 400 |
| Webhook.PostIdempotent | app/api/stripe-webhook/route.ts:13-23 | Delivering the same event twice gives the same reply and the same table as delivering it once |
| Webhook.PaidAfterCompleted | app/api/stripe-webhook/route.ts:13-23 | After an acknowledged completed event an order is paid iff it was paid before or carries the event's session id; only the paid flag ever changes |
| CheckoutSession.Params | app/api/create-checkout-session/route.ts:36-45 | One unit of the configured price; success URL with the provider's session-id placeholder; cancel URL to the home page; metadata holding only the order id |
| CheckoutSession.Post | app/api/create-checkout-session/route.ts:11-58 | Missing fields give 400, missing configuration 500, in that order and before any write or provider call; a failed order insert answers 500 "Internal server error" and writes nothing; every later failure is that same 500; a redirect exactly when insert, session creation and update all succeed, and then the placeholder is added and given the session id; at most one session requested |
| CheckoutSession.PostSuccessOrders | app/api/create-checkout-session/route.ts:27-53 | On success the table gains one unpaid order with the form's fields and the session id, and no earlier order changes |
| CheckoutSession.PlaceholderSurvivesFailure | app/api/create-checkout-session/route.ts:27-57 | A failure after the insert answers "Internal server error" and leaves the placeholder with its empty session id |
| GetSession.Post | app/api/get-session/route.ts:6-49 | A missing secret key gives 500 before the body is read; a missing `sessionId` gives 400; exactly one retrieval, for the given id, once both are present, and none otherwise; on success the reply is exactly the session's id, amount and metadata; a failed retrieval is 500 "Failed to load session" |
| GetSession.PostStatus | app/api/get-session/route.ts:6-49 | 500 without configuration whatever the body; 400 for a missing id; 200 exactly when the provider answers |
| Checkout.Params | app/api/checkout/route.ts:17-32 | A single 400-pence GBP line item of quantity 1, card payment; success and cancel URLs are the site URL plus `/success` and `/cancel` (`undefined/...` when unset) |
| Checkout.Post | app/api/checkout/route.ts:3-39 | Without a secret key, the dummy id and no provider call; otherwise exactly one session request, answered with its id or "Stripe error" |
| Checkout.PostStatus | app/api/checkout/route.ts:3-39 | The status is 500 exactly when the key is set and the provider fails |
| Catalogue.GetCategory | app/page.tsx:132-139 | The category is always one of the five keys of `CATEGORY_ORDER` |
| Catalogue.GetCategoryPrecedence | app/page.tsx:132-139 | Each category is returned exactly when its rule matches the lower-cased key and no earlier rule does: Christmas, Birthday, Thank You, Love, then General |
| Catalogue.GetCategoryIgnoresCase | app/page.tsx:133 | Upper- and lower-casing the key does not change its category |
| Catalogue.Rank | app/page.tsx:124-146 | The rank is between 0 and 4, so the 999 fallback never applies |
| Catalogue.UnthemedKeysAreGeneral | app/page.tsx:29-139 | `winter-forest-tree`, `snowy-cottage-evening` and `warm-wishes` are filed under General |
| Catalogue.SortCards | app/page.tsx:141-153 | The sorted copy is a permutation of the cards, and each card may precede the next: lower category rank first, title order within a rank |
| Catalogue.SortCardsOrder | app/page.tsx:141-153 | Same cards, same length, and category rank non-decreasing across the whole list |
| Catalogue.Find | app/page.tsx:113 | A card is found exactly when one has the selected key, and it is a catalogue card with that key; nothing while the selection is null |
| Catalogue.CardsHaveDistinctKeys | app/page.tsx:13-103 | No two catalogue cards share a key |
| Catalogue.FindUnique | app/page.tsx:113 | With distinct keys, the lookup returns the one card with the selected key |
| Catalogue.SelectedCardItem | app/page.tsx:13-113 | Selecting a catalogue card's key yields that card |
| CardVideo.VideoFile | app/success/SuccessClient.tsx:173 | A key in the table with a non-empty file name maps to that file; an absent or unknown key is kept as it is |
| CardVideo.VideoSrc | app/success/page.tsx:106-107 | The source is `/cards/` + file name + `.mp4` |
| CardVideo.VideoSrcFallback | app/success/page.tsx:106-107 | An unknown key names its own clip; an absent key gives `/cards/undefined.mp4` |
| CardVideo.VideoMapCoversCatalogue | app/success/SuccessClient.tsx:14-27 | The table's keys are exactly the catalogue's keys |
| CardVideo.VideoSrcMatchesCatalogue | app/success/SuccessClient.tsx:14-27 | For every catalogue card the success pages play the clip the catalogue shows for it |
| Purchase.Render | app/success/SuccessClient.tsx:157-173 | The card is shown exactly when loading is over, there is no error and there is data, with the mapped video; an error screen shows the error text |
| Purchase.CopyShareLink | app/success/page.tsx:109-120 | The clipboard is written exactly when a share URL is known, and with that URL |
| Purchase.BaseData | app/success/SuccessClient.tsx:72-76 | Each of the three fields is present exactly when the metadata has its key, and then carries the metadata's value |
| SuccessClient.RequestCertificate | app/success/SuccessClient.tsx:104-120 | No certificate error exactly when the reply is `ok`; otherwise the reply's error or the fixed text; nothing else changes |
| SuccessClient.RequestCard | app/success/SuccessClient.tsx:81-130 | One card request; a certificate request follows exactly when the card reply is ok with a share URL and a share id and none was made before, and it carries that share id; a card failure sets the error and keeps the previous link |
| SuccessClient.LoadSession | app/success/SuccessClient.tsx:55-139 | The session is requested first; a thrown or not-ok reply sets its error and ends the run; the card is requested only with an unset guard and a loaded session; loading always ends |
| SuccessClient.Effect | app/success/SuccessClient.tsx:48-142 | Without a session id: "No session ID provided", no request; loading always ends |
| SuccessClient.EffectGuards | app/success/SuccessClient.tsx:81-109 | In one run, at most one card request and only with its guard unset, likewise for the certificate; guards are set by their request and never cleared |
| SuccessClient.OncePerMount | app/success/SuccessClient.tsx:43-109 | Over any sequence of effect runs, at most one card request and one certificate request, none if the guard was already set |
| SuccessClient.OncePerMountFromStart | app/success/SuccessClient.tsx:43-109 | From mount, at most one card request and one certificate request, however often the effect runs |
| SuccessClient.FirstRunCertificate | app/success/SuccessClient.tsx:81-121 | On the first run the session and card are requested; the certificate is requested iff the card reply is ok with a share URL and id, for that id, and the link is kept |
| SuccessClient.FailedLoadShowsError | app/success/SuccessClient.tsx:49-167 | A run that could not load the session shows its error message, never the card |
| SuccessClient.Copy | app/success/SuccessClient.tsx:144-155 | The clipboard gets the share link exactly when one is known |
| SuccessPage.ShareBody | app/success/page.tsx:75-79 | The share-link request carries exactly the session's card key, recipient and message |
| SuccessPage.ShareJsonOf | app/api/create-share-link/route.ts:29-54 | The page reads `ok` exactly when a link was created, and then the route's URL |
| SuccessPage.Effect | app/success/page.tsx:38-99 | Without a session id: "Missing session ID." and no request; a not-ok session: "Unable to load purchase details." and no share request; a share request exactly when the session loads with metadata; the link changes only on an ok reply with a URL; loading always ends |
| SuccessPage.ShareFailureNotFatal | app/success/page.tsx:82-90 | A failed share-link request still shows the card, with no link to copy |
| SuccessPage.NoShareLinkWithoutSession | app/success/page.tsx:39-95 | Without a loaded session, no share-link request and the matching error on screen |
| SuccessPage.SharedLinkIsTokenUrl | app/success/page.tsx:45-90 | End to end through the get-session route, with the provider holding the session, and the create-share-link route. The link offered for copying is origin + `/c/` + the token of the session metadata's card key, recipient and message |
| Sitemap.Base | app/sitemap.ts:4-5 | An unset or empty site URL gives `https://www.cardroots.com`; otherwise one trailing slash is stripped |
| Sitemap.StaticPages | app/sitemap.ts:8-33 | Four pages, the first at the base URL itself, every URL starting with the base and no two alike |
| Sitemap.StaticEntries | app/sitemap.ts:8-33 | The sitemap opens with the home page, daily at 1.0, then `/corporate` monthly at 0.6, then `/terms` and `/privacy` yearly at 0.2 |
| Sitemap.CardEntries | app/sitemap.ts:36-54 | One monthly entry at priority 0.9 per key, in order, at base + `/card/` + key |
| Sitemap.Sitemap | app/sitemap.ts:3-57 | 16 entries: the 4 static pages in order, then one monthly 0.9 entry per card page |
| Sitemap.CardPagesAreCatalogue | app/sitemap.ts:36-50 | The sitemap's card pages are the catalogue's keys in catalogue order |
| Sitemap.EveryCardListed | app/sitemap.ts:36-56 | Catalogue card `i` is entry `4 + i`, at `base/card/key` |
| Sitemap.TrailingSlashIgnored | app/sitemap.ts:4-5 | A site URL with one trailing slash gives the same sitemap as without it |

## Left out

- I/O, logging and rendering (JSX, `alert`, the clipboard call's own failure) are not modelled. The pages' states and the requests they make stand in for them.
- HMAC-SHA256, `nanoid`, the clock and `toISOString` are parameters. Only the 32-byte MAC length and the 10-character URL-safe id shape are relied on. Dates are opaque `Instant`s.
- The Card store is a sequence of rows in insertion order, not a map plus a set. This lets `findFirst` and the unique constraints be stated as the database applies them. Insert outcomes come from the per-call fault oracle.
- Concurrency appears only as the oracle's row committed by another writer just before a call. Racing success-page effects are modelled as a sequence of runs.
- CardStore.CreateRow: when a row would clash on both unique columns, P2002 names `shareId`. Which constraint the database reports first is an assumption.
- The `cardOrder` `paid` column is assumed to default to false. Its schema is not part of this model.
- lib/stripe.ts exports an async factory, yet the webhook and `create-checkout-session` use that function as if it were a client. As written, `stripe.webhooks` and `stripe.checkout` are undefined, so reading them throws a `TypeError`. So every webhook call answers 400 "Webhook Error: …" with the `TypeError`'s message and changes nothing (app/api/stripe-webhook/route.ts:24-27). Every complete, configured `create-checkout-session` request inserts its placeholder order and then answers 500 "Internal server error" (app/api/create-checkout-session/route.ts:27-36 and 54-57). That is the failure path `CheckoutSession.PlaceholderSurvivesFailure` states. The model gives both routes the intended client behaviour, with the provider's answers as oracles. The as-written outcome is the case where the oracle throws.
- ShareToken.Post, CheckoutSession.Post and GetSession.Post: a body field is modelled as a string or as absent. The routes test only truthiness, and a truthy non-string field is not modelled. Such a field passes the check in the source. There, `create-share-link` with `{"cardKey": 5, …}` answers 200 with a token for the number's JSON. `create-checkout-session` with `{"cardType": 7, …}` answers 500 when the insert rejects the number. `get-session` with `{"sessionId": 7}` answers 500 when the provider rejects it. In the model each of these is a missing field, answered 400.
- Strings are sequences of Unicode scalar values. Lone UTF-16 surrogates, which `JSON.stringify` writes as `\udxxx` escapes and `Buffer.from` as U+FFFD, cannot occur in the model's input.
- `/api/cards/create`, `/api/certificates/create` and the token viewer under app/c are not part of this model. Their replies are inputs to the success pages.
- Base64Url.Decode is a strict, canonical decoder written as the partner of the encoder. Node's lenient decoding of non-canonical input is not modelled.
- Catalogue.SortCards: `localeCompare` is an abstract collation assumed total. Sort stability and the engine's algorithm are not stated: the result is any permutation ordered by the comparator.
- `toLowerCase` and `toUpperCase` are modelled on ASCII letters only.
- The cards' marketing descriptions are not modelled.
- CardVideo.VideoFile: keys inherited from `Object.prototype` (such as `toString`) are treated as absent from `CARD_VIDEO_MAP`.
- Stripe session metadata is modelled as a map that is never null.
- The sitemap's `lastModified` timestamps are not modelled. Priorities are kept in tenths.
- Checkout.Post: the Stripe import and construction outside the `try` are assumed not to throw.
- Token creation is deterministic because `ShareToken.CreateToken` is a function of the secret, the payload and the MAC. No separate lemma states it.
