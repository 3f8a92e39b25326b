/** The card gateway of lib/db/cards.ts: turning a row into the API's
    `Card`, drawing a share id nobody holds, creating the card of a paid
    checkout session exactly once, and looking a card up by share id. */
module Cards {
  import opened Results
  import opened CardStore
  import Js

  /** The `Card` the API returns: snake_case names, dates as ISO text. */
  datatype Card = Card(
    id: string,
    share_id: string,
    card_key: string,
    recipient_name: string,
    message: string,
    stripe_session_id: string,
    stripe_customer_email: Option<string>,
    tree_certificate_url: Option<string>,
    tree_id: Option<string>,
    tree_species: Option<string>,
    tree_location: Option<string>,
    tree_date_planted: Option<string>,
    created_at: string,
    updated_at: string)

  /** `date?.toISOString() || null`: no date, or an empty rendering, is null. */
  function IsoOrNull(d: Option<Instant>, iso: Instant -> string): (r: Option<string>)
    ensures r.Some? <==> d.Some? && iso(d.value) != ""
    ensures r.Some? ==> r.value == iso(d.value)
  {
    if d.Some? && iso(d.value) != "" then Some(iso(d.value)) else None
  }

  /** `prismaCardToCard`: every column is copied into the field of the same
      name, and the three dates are rendered as ISO text. */
  function ToCard(row: StoredCard, iso: Instant -> string): (c: Card)
    ensures c.id == row.id && c.share_id == row.shareId && c.card_key == row.cardKey
    ensures c.recipient_name == row.recipientName && c.message == row.message
    ensures c.stripe_session_id == row.stripeSessionId && c.stripe_customer_email == row.stripeCustomerEmail
    ensures c.tree_certificate_url == row.treeCertificateUrl && c.tree_id == row.treeId
    ensures c.tree_species == row.treeSpecies && c.tree_location == row.treeLocation
    ensures c.tree_date_planted == IsoOrNull(row.treeDatePlanted, iso)
    ensures c.created_at == iso(row.createdAt) && c.updated_at == iso(row.updatedAt)
  {
    Card(row.id, row.shareId, row.cardKey, row.recipientName, row.message, row.stripeSessionId,
      row.stripeCustomerEmail, row.treeCertificateUrl, row.treeId, row.treeSpecies, row.treeLocation,
      IsoOrNull(row.treeDatePlanted, iso), iso(row.createdAt), iso(row.updatedAt))
  }

  /** Nothing but the dates is lost in the conversion: two rows that give the
      same card agree on every other column. */
  lemma ToCardKeepsColumns(a: StoredCard, b: StoredCard, iso: Instant -> string)
    requires ToCard(a, iso) == ToCard(b, iso)
    ensures a.(treeDatePlanted := None, createdAt := Instant(0), updatedAt := Instant(0))
         == b.(treeDatePlanted := None, createdAt := Instant(0), updatedAt := Instant(0))
  {
  }

  /** What the gateway throws: a database error passed on unchanged, or one
      of its own errors. */
  datatype CardError =
    | DbFailure(e: DbError)
    | ShareIdExhausted(attempts: nat)
    | ShareIdUnavailable
    | RetryFailed
    | UnretrievableAfterRace

  const UnavailableMessage: string := "Failed to generate unique share_id"

  /** The `message` of the thrown `Error`. `MessagesDistinct` and
      `ExhaustedMessage` say what the texts tell a caller. A P2002 passed on
      unchanged carries the ORM's own message, which is not modelled: the
      text given for it here is a stand-in that no contract relies on. */
  function Message(e: CardError): string {
    match e
    case DbFailure(Failure(m)) => m
    case DbFailure(UniqueViolation(_)) => "Unique constraint failed"
    case ShareIdExhausted(k) => UnavailableMessage + " after " + Js.DecimalText(k) + " attempts"
    case ShareIdUnavailable => UnavailableMessage
    case RetryFailed => "Failed to create card after retry"
    case UnretrievableAfterRace => "Card exists but could not be retrieved"
  }

  /** The number of `create` calls among some calls. */
  function CountCreates(calls: seq<Call>): nat {
    if |calls| == 0 then 0 else (if calls[0].Create? then 1 else 0) + CountCreates(calls[1..])
  }

  lemma {:induction false} CountCreatesAppend(a: seq<Call>, b: seq<Call>)
    ensures CountCreates(a + b) == CountCreates(a) + CountCreates(b)
    decreases |a|
  {
    if |a| == 0 {
      assert a + b == b;
    } else {
      assert (a + b)[1..] == a[1..] + b;
      CountCreatesAppend(a[1..], b);
    }
  }

  /** The calls made between two states of the database. */
  function CallsBetween(db: Db, db': Db): seq<Call>
    requires db.trace <= db'.trace
  {
    db'.trace[|db.trace|..]
  }

  lemma CallsBetweenChain(a: Db, b: Db, c: Db)
    requires a.trace <= b.trace <= c.trace
    ensures CallsBetween(a, c) == CallsBetween(a, b) + CallsBetween(b, c)
  {
  }

  /** One `findUnique` per id drawn, in the order drawn. */
  function Lookups(o: Oracle, from: nat, n: nat): (calls: seq<Call>)
    ensures |calls| == n
    decreases n
  {
    if n == 0 then [] else [FindUniqueByShareId(o.nanoid(from))] + Lookups(o, from + 1, n - 1)
  }

  lemma {:induction false} LookupsCreateNothing(o: Oracle, from: nat, n: nat)
    ensures CountCreates(Lookups(o, from, n)) == 0
    decreases n
  {
    if n > 0 {
      assert Lookups(o, from, n)[1..] == Lookups(o, from + 1, n - 1);
      LookupsCreateNothing(o, from + 1, n - 1);
    }
  }

  /** One lookup followed by `m` more is `m + 1` lookups of consecutive draws. */
  lemma LookupsStep(db: Db, db2: Db, db3: Db, m: nat)
    requires db2.oracle == db.oracle && db2.draws == db.draws + 1
    requires db2.trace == db.trace + [FindUniqueByShareId(db.oracle.nanoid(db.draws))]
    requires db2.trace <= db3.trace && CallsBetween(db2, db3) == Lookups(db.oracle, db2.draws, m)
    ensures CallsBetween(db, db3) == Lookups(db.oracle, db.draws, m + 1)
  {
    CallsBetweenChain(db, db2, db3);
    assert Lookups(db.oracle, db.draws, m + 1) == [FindUniqueByShareId(db.oracle.nanoid(db.draws))] + Lookups(db.oracle, db2.draws, m);
  }

  /** Every id drawn from draw number `from` up to, not including, `to` is
      held by a row. */
  ghost predicate TakenFrom(st: Store, o: Oracle, from: nat, to: nat) {
    forall k :: from <= k < to ==> HasShareId(st, o.nanoid(k))
  }

  /** A taken draw followed by taken draws, in a table that only grows. */
  lemma TakenStep(db: Db, db2: Db, db3: Db)
    requires db2.oracle == db.oracle && db2.draws == db.draws + 1 && db2.store.rows <= db3.store.rows
    requires HasShareId(db2.store, db.oracle.nanoid(db.draws))
    requires TakenFrom(db3.store, db.oracle, db2.draws, db3.draws)
    ensures TakenFrom(db3.store, db.oracle, db.draws, db3.draws)
  {
    GrowthKeepsShareIds(db2.store, db3.store, db.oracle.nanoid(db.draws));
  }

  /** One round of the loop of `generateShareId`: draw an id and ask whether
      a row holds it. */
  function Probe(db: Db): (r: (Db, ShareId, Result<bool, DbError>))
    ensures r.1 == db.oracle.nanoid(db.draws)
    ensures r.0 == db.(store := Admit(db.store, db.oracle.fault(|db.trace|)),
                       trace := db.trace + [FindUniqueByShareId(r.1)], draws := db.draws + 1)
    ensures r.2.Err? <==> db.oracle.fault(|db.trace|).Crash?
    ensures r.2.Err? ==> r.2.error == Failure(db.oracle.fault(|db.trace|).message)
    ensures r.2.Ok? ==> (r.2.value <==> HasShareId(r.0.store, r.1))
  {
    var (id, db1) := Draw(db);
    var (db2, found) := FindUnique(db1, id);
    match found
    case Err(e) => (db2, id, Err(e))
    case Ok(row) => (db2, id, Ok(row.Some?))
  }

  /** `generateShareId` from attempt `attempt` on: draw an id, look it up,
      return it if no row holds it, give up after the last attempt. Only
      lookups are made, one per id drawn, and at most one per remaining
      attempt; `AttemptFree`, `AttemptExhausted` and `AttemptCrash` say
      what each outcome means. */
  function Attempt(db: Db, attempt: nat, maxRetries: nat): (r: (Db, Result<ShareId, CardError>))
    ensures Grows(db, r.0)
    ensures var n := r.0.draws - db.draws;
      && (if attempt < maxRetries then 1 <= n <= maxRetries - attempt else n == 0)
      && CallsBetween(db, r.0) == Lookups(db.oracle, db.draws, n)
    ensures r.1 == Err(ShareIdUnavailable) <==> attempt >= maxRetries
    ensures r.1.Err? ==> r.1.error.DbFailure? || r.1.error.ShareIdExhausted? || r.1.error.ShareIdUnavailable?
    decreases maxRetries - attempt
  {
    if attempt >= maxRetries then (db, Err(ShareIdUnavailable))
    else
      var (db2, id, taken) := Probe(db);
      match taken
      case Err(e) => (db2, Err(DbFailure(e)))
      case Ok(false) => (db2, Ok(id))
      case Ok(true) =>
        if attempt == maxRetries - 1 then (db2, Err(ShareIdExhausted(maxRetries)))
        else
          var r := Attempt(db2, attempt + 1, maxRetries);
          LookupsStep(db, db2, r.0, r.0.draws - db2.draws);
          r
  }

  /** The id `generateShareId` returns is the last one drawn, and no row
      held it when it was looked up. */
  lemma {:induction false} AttemptFree(db: Db, attempt: nat, maxRetries: nat, r: (Db, Result<ShareId, CardError>))
    requires r == Attempt(db, attempt, maxRetries)
    ensures r.1.Ok? ==>
      r.0.draws > db.draws && r.1.value == db.oracle.nanoid(r.0.draws - 1) && !HasShareId(r.0.store, r.1.value)
    decreases maxRetries - attempt
  {
    if attempt < maxRetries && r.1.Ok? {
      var p := Probe(db);
      if p.2 != Ok(false) {
        AttemptFree(p.0, attempt + 1, maxRetries, r);
      }
    }
  }

  /** `generateShareId` gives up only after drawing an id for every
      remaining attempt, each of them held by a row. */
  lemma {:induction false} AttemptExhausted(db: Db, attempt: nat, maxRetries: nat, r: (Db, Result<ShareId, CardError>))
    requires r == Attempt(db, attempt, maxRetries)
    ensures r.1.Err? && r.1.error.ShareIdExhausted? ==>
      && r.1.error.attempts == maxRetries
      && r.0.draws - db.draws == maxRetries - attempt
      && TakenFrom(r.0.store, db.oracle, db.draws, r.0.draws)
    decreases maxRetries - attempt
  {
    if attempt < maxRetries && r.1.Err? && r.1.error.ShareIdExhausted? {
      var p := Probe(db);
      assert p.2 == Ok(true);
      if attempt == maxRetries - 1 {
        assert r.0 == p.0;
      } else {
        AttemptExhausted(p.0, attempt + 1, maxRetries, r);
        TakenStep(db, p.0, r.0);
      }
    }
  }

  /** A database error in `generateShareId` is the failure of its last
      lookup, passed on unchanged. */
  lemma {:induction false} AttemptCrash(db: Db, attempt: nat, maxRetries: nat, r: (Db, Result<ShareId, CardError>))
    requires r == Attempt(db, attempt, maxRetries)
    ensures r.1.Err? && r.1.error.DbFailure? ==>
      && db.oracle.fault(|r.0.trace| - 1).Crash?
      && r.1.error == DbFailure(Failure(db.oracle.fault(|r.0.trace| - 1).message))
    decreases maxRetries - attempt
  {
    if attempt < maxRetries && r.1.Err? && r.1.error.DbFailure? {
      var p := Probe(db);
      if p.2 == Ok(true) {
        AttemptCrash(p.0, attempt + 1, maxRetries, r);
      }
    }
  }

  /** `generateShareId(maxRetries)`: only lookups (so no `create`, by
      `LookupsCreateNothing`), at most `maxRetries` of them, one per id
      drawn; with no attempts allowed at all the fallback
      error is thrown. `GenerateShareIdFree`, `GenerateShareIdExhausted`
      and `GenerateShareIdUncontended` say what the outcomes mean. */
  function GenerateShareId(db: Db, maxRetries: nat): (r: (Db, Result<ShareId, CardError>))
    ensures Grows(db, r.0)
    ensures var n := r.0.draws - db.draws;
      n <= maxRetries && CallsBetween(db, r.0) == Lookups(db.oracle, db.draws, n)
    ensures r.1 == Err(ShareIdUnavailable) <==> maxRetries == 0
    ensures r.1.Err? ==> r.1.error.DbFailure? || r.1.error.ShareIdExhausted? || r.1.error.ShareIdUnavailable?
  {
    Attempt(db, 0, maxRetries)
  }

  /** The id returned is the last one drawn, and no row held it when it
      was looked up. */
  lemma GenerateShareIdFree(db: Db, maxRetries: nat, r: (Db, Result<ShareId, CardError>))
    requires r == GenerateShareId(db, maxRetries)
    ensures r.1.Ok? ==>
      r.0.draws > db.draws && r.1.value == db.oracle.nanoid(r.0.draws - 1) && !HasShareId(r.0.store, r.1.value)
  {
    AttemptFree(db, 0, maxRetries, r);
  }

  /** Exhaustion means that all `maxRetries` ids drawn were taken. */
  lemma GenerateShareIdExhausted(db: Db, maxRetries: nat, r: (Db, Result<ShareId, CardError>))
    requires r == GenerateShareId(db, maxRetries)
    ensures r.1.Err? && r.1.error.ShareIdExhausted? ==>
      && r.1.error.attempts == maxRetries && r.0.draws - db.draws == maxRetries
      && TakenFrom(r.0.store, db.oracle, db.draws, r.0.draws)
  {
    AttemptExhausted(db, 0, maxRetries, r);
  }

  /** With a free first id and a lookup that goes through, the first id is
      returned after one lookup and the table is unchanged. */
  lemma GenerateShareIdUncontended(db: Db, maxRetries: nat, r: (Db, Result<ShareId, CardError>))
    requires r == GenerateShareId(db, maxRetries)
    requires maxRetries > 0 && db.oracle.fault(|db.trace|).Clean? && !HasShareId(db.store, db.oracle.nanoid(db.draws))
    ensures r.1 == Ok(db.oracle.nanoid(db.draws)) && r.0.store == db.store && |r.0.trace| == |db.trace| + 1
  {
  }

  /** The number of ids `createCard` asks `generateShareId` for. */
  const MaxShareIdAttempts: nat := 5

  /** When `createCard`'s draw gives up, the error says so with the count
      of 5 attempts. */
  lemma ExhaustedMessage(db: Db, r: (Db, Result<ShareId, CardError>))
    requires r == GenerateShareId(db, MaxShareIdAttempts)
    ensures r.1.Err? && r.1.error.ShareIdExhausted? ==>
      Message(r.1.error) == "Failed to generate unique share_id after 5 attempts"
  {
    GenerateShareIdExhausted(db, MaxShareIdAttempts, r);
    if r.1.Err? && r.1.error.ShareIdExhausted? {
      FiveAttemptsMessage();
    }
  }

  lemma FiveAttemptsMessage()
    ensures Message(ShareIdExhausted(5)) == "Failed to generate unique share_id after 5 attempts"
  {
    assert Js.DecimalText(5) == "5";
    assert Message(ShareIdExhausted(5)) == UnavailableMessage + " after " + "5" + " attempts";
  }

  /** The exhausted message holds the attempt count between a fixed head
      and tail, and differs from the other messages early on. */
  lemma ExhaustedText(k: nat)
    ensures var m := Message(ShareIdExhausted(k));
      && |UnavailableMessage| + 17 <= |m| && m[10] == 'g'
      && m[|UnavailableMessage| + 7..|m| - 9] == Js.DecimalText(k)
  {
    var head, tail := UnavailableMessage + " after ", " attempts";
    var m := Message(ShareIdExhausted(k));
    assert m == head + Js.DecimalText(k) + tail;
    assert m[10] == head[10];
  }

  /** The gateway's own errors all read differently, the exhausted one for
      each attempt count: the message alone tells which error was thrown. */
  lemma MessagesDistinct(a: CardError, b: CardError)
    requires !a.DbFailure? && !b.DbFailure? && Message(a) == Message(b)
    ensures a == b
  {
    if a.ShareIdExhausted? {
      ExhaustedText(a.attempts);
    }
    if b.ShareIdExhausted? {
      ExhaustedText(b.attempts);
    }
  }

  /** The arguments of `createCard`; an omitted or null e-mail is None. */
  datatype CreateRequest = CreateRequest(
    cardKey: string,
    recipientName: string,
    message: string,
    stripeSessionId: string,
    stripeCustomerEmail: Option<string>)

  function Data(req: CreateRequest, id: ShareId): NewCard {
    NewCard(id, req.cardKey, req.recipientName, req.message, req.stripeSessionId, req.stripeCustomerEmail)
  }

  /** The card returned is the one the table holds for the session. */
  ghost predicate IsSessionCard(db: Db, sessionId: string, c: Card) {
    HasSession(db.store, sessionId) && c == ToCard(FindBySession(db.store, sessionId).value, db.oracle.iso)
  }

  /** A card created from the request: its columns are the request's, its
      share id freshly drawn, its tree columns empty. */
  predicate FromRequest(req: CreateRequest, c: Card) {
    && c.card_key == req.cardKey && c.recipient_name == req.recipientName && c.message == req.message
    && c.stripe_session_id == req.stripeSessionId && c.stripe_customer_email == req.stripeCustomerEmail
    && |c.share_id| == 10
    && c.tree_certificate_url.None? && c.tree_id.None? && c.tree_species.None? && c.tree_location.None?
    && c.tree_date_planted.None?
  }

  /** The last call made was a `create`. */
  predicate EndsWithCreate(db: Db) {
    |db.trace| > 0 && db.trace[|db.trace| - 1].Create?
  }

  /** Inserting the request's row, as both `create` calls of `createCard` do. */
  function Insert(db: Db, req: CreateRequest, id: ShareId): (r: (Db, Result<Card, DbError>))
    ensures Grows(db, r.0) && CallsBetween(db, r.0) == [Create(Data(req, id))]
    ensures r.1.Ok? ==>
      IsSessionCard(r.0, req.stripeSessionId, r.1.value) && FromRequest(req, r.1.value) && r.1.value.share_id == id
    ensures r.1.Ok? <==> CreateRow(db, Data(req, id)).1.Ok?
    ensures r.1.Err? ==> r.1.error == CreateRow(db, Data(req, id)).1.error
    ensures r.1 == Err(UniqueViolation(["stripeSessionId"])) ==> HasSession(r.0.store, req.stripeSessionId)
  {
    var (db1, created) := CreateRow(db, Data(req, id));
    CreateRowGrows(db, Data(req, id));
    match created
    case Err(e) => (db1, Err(e))
    case Ok(row) =>
      FindAppended(Admit(db.store, db.oracle.fault(|db.trace|)), row);
      (db1, Ok(ToCard(row, db.oracle.iso)))
  }

  /** The insert of the retry, with an id drawn between `db` and `db1`
      that no row held: a failed insert becomes "Failed to create card
      after retry". */
  function InsertRetried(db: Db, db1: Db, req: CreateRequest, id: ShareId): (r: (Db, Result<Card, CardError>))
    requires Grows(db, db1) && CountCreates(CallsBetween(db, db1)) == 0 && !HasShareId(db1.store, id)
    ensures Grows(db, r.0) && CountCreates(CallsBetween(db, r.0)) == 1
    ensures r.1.Ok? ==>
      && IsSessionCard(r.0, req.stripeSessionId, r.1.value) && FromRequest(req, r.1.value)
      && !HasShareId(db.store, r.1.value.share_id)
    ensures r.1.Ok? <==> CreateRow(db1, Data(req, id)).1.Ok?
    ensures r.1.Err? ==> r.1.error == RetryFailed
  {
    var (db2, created) := Insert(db1, req, id);
    GrowsTransitive(db, db1, db2);
    CallsBetweenChain(db, db1, db2);
    CountCreatesAppend(CallsBetween(db, db1), CallsBetween(db1, db2));
    FreeBeforeGrowth(db.store, db1.store, id);
    if created.Ok? then (db2, Ok(created.value)) else (db2, Err(RetryFailed))
  }

  /** The share-id branch of the catch: one more id, one more insert; any
      failure of that insert becomes "Failed to create card after retry",
      while a failure to draw the id is passed on as it is. */
  function RetryWithNewShareId(db: Db, req: CreateRequest): (r: (Db, Result<Card, CardError>))
    ensures Grows(db, r.0) && CountCreates(CallsBetween(db, r.0)) <= 1
    ensures r.1.Ok? ==> IsSessionCard(r.0, req.stripeSessionId, r.1.value) && FromRequest(req, r.1.value)
    ensures r.1.Ok? ==> !HasShareId(db.store, r.1.value.share_id)
    ensures r.1.Err? ==> r.1.error.DbFailure? || r.1.error.ShareIdExhausted? || r.1.error == RetryFailed
    ensures var g := GenerateShareId(db, MaxShareIdAttempts);
      g.1.Err? ==> r == (g.0, Err(g.1.error))
    ensures var g := GenerateShareId(db, MaxShareIdAttempts);
      g.1.Ok? ==>
        && CountCreates(CallsBetween(db, r.0)) == 1
        && (r.1.Ok? <==> CreateRow(g.0, Data(req, g.1.value)).1.Ok?)
        && (r.1.Err? ==> r.1.error == RetryFailed)
  {
    var g := GenerateShareId(db, MaxShareIdAttempts);
    GenerateShareIdFree(db, MaxShareIdAttempts, g);
    LookupsCreateNothing(db.oracle, db.draws, g.0.draws - db.draws);
    if g.1.Err? then (g.0, Err(g.1.error)) else InsertRetried(db, g.0, req, g.1.value)
  }

  /** The session-id branch of the catch: fetch the row that beat us to the
      session. "Card exists but could not be retrieved" is thrown only if
      the table holds no row for the session even after the fetch. */
  function RefetchAfterRace(db: Db, sessionId: string): (r: (Db, Result<Card, CardError>))
    ensures Grows(db, r.0) && CallsBetween(db, r.0) == [FindFirstBySession(sessionId)]
    ensures r.1.Ok? ==> IsSessionCard(r.0, sessionId, r.1.value)
    ensures r.1 == Err(UnretrievableAfterRace) ==> !HasSession(r.0.store, sessionId)
    ensures HasSession(db.store, sessionId) ==> r.1 != Err(UnretrievableAfterRace)
    ensures r.1.Err? ==> r.1.error == UnretrievableAfterRace || r.1.error.DbFailure?
  {
    var (db1, found) := FindFirst(db, sessionId);
    match found
    case Err(e) => (db1, Err(DbFailure(e)))
    case Ok(Some(row)) => (db1, Ok(ToCard(row, db.oracle.iso)))
    case Ok(None) =>
      (db1, Err(UnretrievableAfterRace))
  }

  /** The catch of `createCard` for an error of its first `create`: a P2002
      whose first target is `shareId` retries, one whose first target is
      `stripeSessionId` refetches, anything else is rethrown unchanged. */
  function Recover(db: Db, req: CreateRequest, e: DbError): (r: (Db, Result<Card, CardError>))
    ensures Grows(db, r.0) && CountCreates(CallsBetween(db, r.0)) <= 1
    ensures r.1.Ok? ==> IsSessionCard(r.0, req.stripeSessionId, r.1.value)
    ensures e.Failure? || (e.UniqueViolation? && (|e.target| == 0 || e.target[0] !in {"shareId", "stripeSessionId"}))
      ==> r == (db, Err(DbFailure(e)))
    ensures e.UniqueViolation? && |e.target| > 0 && e.target[0] == "shareId"
      ==> r == RetryWithNewShareId(db, req)
    ensures e.UniqueViolation? && |e.target| > 0 && e.target[0] == "stripeSessionId"
      ==> r == RefetchAfterRace(db, req.stripeSessionId)
    ensures e.UniqueViolation? && |e.target| > 0 && e.target[0] == "stripeSessionId" && HasSession(db.store, req.stripeSessionId)
      ==> r.1 != Err(UnretrievableAfterRace)
  {
    match e
    case UniqueViolation(target) =>
      if |target| > 0 && target[0] == "shareId" then RetryWithNewShareId(db, req)
      else if |target| > 0 && target[0] == "stripeSessionId" then RefetchAfterRace(db, req.stripeSessionId)
      else (db, Err(DbFailure(e)))
    case Failure(_) => (db, Err(DbFailure(e)))
  }

  /** The end of the `try` block of `createCard` once an id is drawn:
      insert, and on a database error go to the catch. */
  function InsertOrRecover(db: Db, req: CreateRequest, id: ShareId): (r: (Db, Result<Card, CardError>))
    ensures Grows(db, r.0) && CountCreates(CallsBetween(db, r.0)) <= 2
    ensures r.1.Ok? ==> IsSessionCard(r.0, req.stripeSessionId, r.1.value)
    ensures r.1.Ok? && EndsWithCreate(r.0) ==> FromRequest(req, r.1.value)
    ensures r.1 != Err(UnretrievableAfterRace)
    ensures var (db1, c) := Insert(db, req, id);
      && (c.Ok? ==> r == (db1, Ok(c.value)))
      && (c.Err? ==> r == Recover(db1, req, c.error))
  {
    var (db1, created) := Insert(db, req, id);
    match created
    case Ok(c) => (db1, Ok(c))
    case Err(e) =>
      var r := Recover(db1, req, e);
      GrowsTransitive(db, db1, r.0);
      CallsBetweenChain(db, db1, r.0);
      CountCreatesAppend(CallsBetween(db, db1), CallsBetween(db1, r.0));
      r
  }

  /** The part of `createCard` after the session was found unused. */
  function CreateFresh(db: Db, req: CreateRequest): (r: (Db, Result<Card, CardError>))
    ensures Grows(db, r.0) && CountCreates(CallsBetween(db, r.0)) <= 2
    ensures r.1.Ok? ==> IsSessionCard(r.0, req.stripeSessionId, r.1.value)
    ensures r.1.Ok? && EndsWithCreate(r.0) ==> FromRequest(req, r.1.value)
    ensures r.1 != Err(UnretrievableAfterRace)
  {
    var (db1, gen) := GenerateShareId(db, MaxShareIdAttempts);
    GenerateShareIdFree(db, MaxShareIdAttempts, (db1, gen));
    LookupsCreateNothing(db.oracle, db.draws, db1.draws - db.draws);
    match gen
    case Err(e) => (db1, Err(e))
    case Ok(id) =>
      var r := InsertOrRecover(db1, req, id);
      GrowsTransitive(db, db1, r.0);
      CallsBetweenChain(db, db1, r.0);
      CountCreatesAppend(CallsBetween(db, db1), CallsBetween(db1, r.0));
      r
  }

  /** `createCard`: return the card already made for the session if there is
      one, otherwise draw a share id and insert the card, recovering from a
      unique-constraint clash as `Recover` says. Whatever it returns is the
      table's card for the session; it never throws "Card exists but could
      not be retrieved", and it calls `create` at most twice. */
  function CreateCard(db: Db, req: CreateRequest): (r: (Db, Result<Card, CardError>))
    ensures Grows(db, r.0)
    ensures r.1.Ok? ==> IsSessionCard(r.0, req.stripeSessionId, r.1.value)
    ensures r.1 != Err(UnretrievableAfterRace)
    ensures CountCreates(CallsBetween(db, r.0)) <= 2
    ensures r.1.Ok? && EndsWithCreate(r.0) ==> FromRequest(req, r.1.value)
    ensures db.oracle.fault(|db.trace|).Crash? ==>
      r.1 == Err(DbFailure(Failure(db.oracle.fault(|db.trace|).message))) && |r.0.trace| == |db.trace| + 1
  {
    var (db1, found) := FindFirst(db, req.stripeSessionId);
    match found
    case Err(e) => (db1, Err(DbFailure(e)))
    case Ok(Some(row)) => (db1, Ok(ToCard(row, db.oracle.iso)))
    case Ok(None) =>
      var r := CreateFresh(db1, req);
      GrowsTransitive(db, db1, r.0);
      CallsBetweenChain(db, db1, r.0);
      CountCreatesAppend(CallsBetween(db, db1), CallsBetween(db1, r.0));
      r
  }

  /** `getCardByShareId`: the card holding the share id, or null when there
      is none or the lookup throws. */
  function GetCardByShareId(db: Db, id: string): (r: (Db, Option<Card>))
    ensures Grows(db, r.0) && CallsBetween(db, r.0) == [FindUniqueByShareId(id)]
    ensures r.1.Some? <==> !db.oracle.fault(|db.trace|).Crash? && HasShareId(r.0.store, id)
    ensures r.1.Some? ==>
      r.1.value.share_id == id && r.1.value == ToCard(FindByShareId(r.0.store, id).value, db.oracle.iso)
  {
    var (db1, found) := FindUnique(db, id);
    match found
    case Err(_) => (db1, None)
    case Ok(None) => (db1, None)
    case Ok(Some(row)) => (db1, Some(ToCard(row, db.oracle.iso)))
  }

  /** Idempotence: when the table already holds a card for the session,
      `createCard` returns that card after a single lookup and creates
      nothing. */
  lemma CreateCardExisting(db: Db, req: CreateRequest)
    requires HasSession(db.store, req.stripeSessionId) && !db.oracle.fault(|db.trace|).Crash?
    ensures var r := CreateCard(db, req);
      && r.1 == Ok(ToCard(FindBySession(db.store, req.stripeSessionId).value, db.oracle.iso))
      && CallsBetween(db, r.0) == [FindFirstBySession(req.stripeSessionId)]
      && (db.oracle.fault(|db.trace|).Clean? ==> r.0.store == db.store)
  {
    var st' := Admit(db.store, db.oracle.fault(|db.trace|));
    GrowthKeepsLookups(db.store, st', req.stripeSessionId);
  }

  /** In a table that keeps its constraints, the card `createCard` returns
      is the only one for the session. */
  lemma CreatedCardIsTheOnlyOne(db: Db, req: CreateRequest, i: nat)
    requires Unique(db.store) && CreateCard(db, req).1.Ok?
    requires var st := CreateCard(db, req).0.store;
      i < |st.rows| && st.rows[i].stripeSessionId == req.stripeSessionId
    ensures var (db1, c) := CreateCard(db, req);
      c.value == ToCard(db1.store.rows[i], db.oracle.iso)
  {
    var (db1, c) := CreateCard(db, req);
    var j := FirstWithSession(db1.store.rows, req.stripeSessionId).value;
    assert j == i;
  }

  /** Calling `createCard` again for a session it has already answered
      returns the same card and creates nothing, whatever the other fields
      of the second request say. */
  lemma CreateCardTwice(db: Db, req: CreateRequest, again: CreateRequest)
    requires again.stripeSessionId == req.stripeSessionId
    requires CreateCard(db, req).1.Ok?
    requires !db.oracle.fault(|CreateCard(db, req).0.trace|).Crash?
    ensures var first := CreateCard(db, req);
      var second := CreateCard(first.0, again);
      second.1 == first.1 && CountCreates(CallsBetween(first.0, second.0)) == 0
  {
    var first := CreateCard(db, req);
    CreateCardExisting(first.0, again);
  }

  /** Without contention (no row for the session, an unused first id, and
      three calls that go through), `createCard` looks the session up, looks
      the id up, inserts the request's row, and returns it. */
  lemma CreateCardUncontended(db: Db, req: CreateRequest)
    requires !HasSession(db.store, req.stripeSessionId)
    requires !HasShareId(db.store, db.oracle.nanoid(db.draws))
    requires db.oracle.fault(|db.trace|).Clean? && db.oracle.fault(|db.trace| + 1).Clean?
    requires db.oracle.fault(|db.trace| + 2).Clean?
    ensures var r := CreateCard(db, req);
      var id := db.oracle.nanoid(db.draws);
      var row := NewRow(Data(req, id), db.oracle.defaults(|db.trace| + 2));
      && r.1 == Ok(ToCard(row, db.oracle.iso))
      && r.0.store == Store(db.store.rows + [row])
      && CallsBetween(db, r.0) == [FindFirstBySession(req.stripeSessionId), FindUniqueByShareId(id), Create(Data(req, id))]
  {
    var (db1, _) := FindFirst(db, req.stripeSessionId);
    GenerateShareIdUncontended(db1, MaxShareIdAttempts, GenerateShareId(db1, MaxShareIdAttempts));
    var (db2, _) := GenerateShareId(db1, MaxShareIdAttempts);
    var (db3, _) := CreateRow(db2, Data(req, db.oracle.nanoid(db.draws)));
    CallsBetweenChain(db, db1, db2);
    CallsBetweenChain(db, db2, db3);
  }

  /** An insert met by another writer's card for the same session (but not
      the same share id) admits that card and clashes on the session id. */
  lemma InsertMeetsSessionRace(db: Db, req: CreateRequest, id: ShareId, other: StoredCard)
    requires db.oracle.fault(|db.trace|) == Concurrent(other) && Fits(db.store, other)
    requires other.stripeSessionId == req.stripeSessionId && other.shareId != id
    requires !HasShareId(db.store, id)
    ensures var r := Insert(db, req, id);
      && r.0.store == Store(db.store.rows + [other])
      && r.1 == Err(UniqueViolation(["stripeSessionId"]))
  {
    var st := Store(db.store.rows + [other]);
    assert Admit(db.store, db.oracle.fault(|db.trace|)) == st;
    assert st.rows[|db.store.rows|] == other;
    assert HasSession(st, req.stripeSessionId);
    assert !HasShareId(st, id);
  }

  /** After that clash the catch refetches, and finds the other writer's
      card: one `create`, then one `findFirst`. */
  lemma InsertOrRecoverSessionRace(db: Db, req: CreateRequest, id: ShareId, other: StoredCard)
    requires db.oracle.fault(|db.trace|) == Concurrent(other) && Fits(db.store, other)
    requires other.stripeSessionId == req.stripeSessionId && other.shareId != id
    requires !HasShareId(db.store, id)
    requires !db.oracle.fault(|db.trace| + 1).Crash?
    ensures var r := InsertOrRecover(db, req, id);
      && r.1 == Ok(ToCard(other, db.oracle.iso))
      && CallsBetween(db, r.0) == [Create(Data(req, id)), FindFirstBySession(req.stripeSessionId)]
  {
    InsertMeetsSessionRace(db, req, id, other);
    var (db1, _) := Insert(db, req, id);
    var st := Store(db.store.rows + [other]);
    FindAppended(db.store, other);
    var (db2, _) := FindFirst(db1, req.stripeSessionId);
    GrowthKeepsLookups(st, db2.store, req.stripeSessionId);
    CallsBetweenChain(db, db1, db2);
  }

  /** The same race from the drawing of the id on: one lookup of the free
      id, the clashing `create`, the refetch. */
  lemma CreateFreshSessionRace(db: Db, req: CreateRequest, other: StoredCard)
    requires !HasShareId(db.store, db.oracle.nanoid(db.draws))
    requires db.oracle.fault(|db.trace|).Clean? && db.oracle.fault(|db.trace| + 1) == Concurrent(other)
    requires other.stripeSessionId == req.stripeSessionId && Fits(db.store, other)
    requires other.shareId != db.oracle.nanoid(db.draws)
    requires !db.oracle.fault(|db.trace| + 2).Crash?
    ensures var r := CreateFresh(db, req);
      var id := db.oracle.nanoid(db.draws);
      && r.1 == Ok(ToCard(other, db.oracle.iso))
      && CallsBetween(db, r.0) == [FindUniqueByShareId(id), Create(Data(req, id)), FindFirstBySession(req.stripeSessionId)]
  {
    var id := db.oracle.nanoid(db.draws);
    GenerateShareIdUncontended(db, MaxShareIdAttempts, GenerateShareId(db, MaxShareIdAttempts));
    var (db1, _) := GenerateShareId(db, MaxShareIdAttempts);
    InsertOrRecoverSessionRace(db1, req, id, other);
    CallsBetweenChain(db, db1, InsertOrRecover(db1, req, id).0);
  }

  /** The race the session-id branch of the catch handles: no card for the
      session at the first lookup, a free first id, and another writer
      commits a card for the same session (with a different share id) just
      before the insert. The insert then clashes on the session id, and
      `createCard` returns the other writer's card; its calls are the session
      lookup, the id lookup, the one `create` and the refetch. */
  lemma CreateCardSessionRace(db: Db, req: CreateRequest, other: StoredCard)
    requires !HasSession(db.store, req.stripeSessionId)
    requires !HasShareId(db.store, db.oracle.nanoid(db.draws))
    requires db.oracle.fault(|db.trace|).Clean? && db.oracle.fault(|db.trace| + 1).Clean?
    requires db.oracle.fault(|db.trace| + 2) == Concurrent(other)
    requires other.stripeSessionId == req.stripeSessionId && Fits(db.store, other)
    requires other.shareId != db.oracle.nanoid(db.draws)
    requires !db.oracle.fault(|db.trace| + 3).Crash?
    ensures var r := CreateCard(db, req);
      var id := db.oracle.nanoid(db.draws);
      && r.1 == Ok(ToCard(other, db.oracle.iso))
      && CallsBetween(db, r.0) == [FindFirstBySession(req.stripeSessionId), FindUniqueByShareId(id),
           Create(Data(req, id)), FindFirstBySession(req.stripeSessionId)]
  {
    var (db1, _) := FindFirst(db, req.stripeSessionId);
    CreateFreshSessionRace(db1, req, other);
    CallsBetweenChain(db, db1, CreateFresh(db1, req).0);
  }

  /** The share link of a created card resolves: looking the card's share id
      up afterwards gives back exactly that card. */
  lemma CreatedCardResolves(db: Db, req: CreateRequest)
    requires Unique(db.store)
    requires CreateCard(db, req).1.Ok?
    requires !db.oracle.fault(|CreateCard(db, req).0.trace|).Crash?
    ensures var (db1, c) := CreateCard(db, req);
      GetCardByShareId(db1, c.value.share_id).1 == Some(c.value)
  {
    var (db1, c) := CreateCard(db, req);
    var row := FindBySession(db1.store, req.stripeSessionId).value;
    var st := Admit(db1.store, db.oracle.fault(|db1.trace|));
    assert row in st.rows;
    FindByShareIdUnique(st, row);
  }
}
