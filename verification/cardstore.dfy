/** The Card table behind lib/db/cards.ts, and the three ORM calls the
    gateway makes on it (`findFirst` by session id, `findUnique` by share id,
    `create`). The table is a sequence of rows in insertion order; the
    database enforces that share ids and session ids are unique. Everything
    the database or the environment decides on its own is read from an
    oracle: the ids `nanoid(10)` draws, the row id and timestamps a new row
    gets, whether a call fails, and whether another writer commits a row just
    before a call reaches the table (the only form of concurrency modelled). */
module CardStore {
  import opened Results
  import Base64Url

  /** A moment in time; only its ISO-8601 text is ever observed. */
  datatype Instant = Instant(epochMillis: int)

  /** What `nanoid(10)` returns: ten characters of the URL-safe alphabet. */
  type ShareId = s: string | |s| == 10 && forall i :: 0 <= i < |s| ==> Base64Url.InAlphabet(s[i])
    witness "AAAAAAAAAA"

  /** A row of the Card table as the ORM returns it. */
  datatype StoredCard = StoredCard(
    id: string,
    shareId: string,
    cardKey: string,
    recipientName: string,
    message: string,
    stripeSessionId: string,
    stripeCustomerEmail: Option<string>,
    treeCertificateUrl: Option<string>,
    treeId: Option<string>,
    treeSpecies: Option<string>,
    treeLocation: Option<string>,
    treeDatePlanted: Option<Instant>,
    createdAt: Instant,
    updatedAt: Instant)

  datatype Store = Store(rows: seq<StoredCard>)

  /** The table's unique constraints: no two rows share a share id or a
      session id. */
  ghost predicate Unique(st: Store) {
    forall i, j :: 0 <= i < j < |st.rows| ==>
      st.rows[i].shareId != st.rows[j].shareId && st.rows[i].stripeSessionId != st.rows[j].stripeSessionId
  }

  predicate HasShareId(st: Store, id: string) {
    exists i :: 0 <= i < |st.rows| && st.rows[i].shareId == id
  }

  predicate HasSession(st: Store, sessionId: string) {
    exists i :: 0 <= i < |st.rows| && st.rows[i].stripeSessionId == sessionId
  }

  /** The first row with the given session id (`findFirst`). */
  function FirstWithSession(rows: seq<StoredCard>, sessionId: string): (r: Option<nat>)
    ensures r.Some? ==> r.value < |rows| && rows[r.value].stripeSessionId == sessionId
    ensures r.Some? ==> forall i :: 0 <= i < r.value ==> rows[i].stripeSessionId != sessionId
    ensures r.None? ==> forall i :: 0 <= i < |rows| ==> rows[i].stripeSessionId != sessionId
    decreases |rows|
  {
    if |rows| == 0 then None
    else if rows[0].stripeSessionId == sessionId then Some(0)
    else match FirstWithSession(rows[1..], sessionId)
      case None => None
      case Some(i) => Some(i + 1)
  }

  /** The first row with the given share id (`findUnique`: there is at most one). */
  function FirstWithShareId(rows: seq<StoredCard>, id: string): (r: Option<nat>)
    ensures r.Some? ==> r.value < |rows| && rows[r.value].shareId == id
    ensures r.None? ==> forall i :: 0 <= i < |rows| ==> rows[i].shareId != id
    decreases |rows|
  {
    if |rows| == 0 then None
    else if rows[0].shareId == id then Some(0)
    else match FirstWithShareId(rows[1..], id)
      case None => None
      case Some(i) => Some(i + 1)
  }

  function FindBySession(st: Store, sessionId: string): (r: Option<StoredCard>)
    ensures r.Some? <==> HasSession(st, sessionId)
    ensures r.Some? ==> r.value in st.rows && r.value.stripeSessionId == sessionId
  {
    match FirstWithSession(st.rows, sessionId)
    case None => None
    case Some(i) => Some(st.rows[i])
  }

  function FindByShareId(st: Store, id: string): (r: Option<StoredCard>)
    ensures r.Some? <==> HasShareId(st, id)
    ensures r.Some? ==> r.value in st.rows && r.value.shareId == id
  {
    match FirstWithShareId(st.rows, id)
    case None => None
    case Some(i) => Some(st.rows[i])
  }

  /** A row can join the table without breaking a unique constraint. */
  predicate Fits(st: Store, row: StoredCard) {
    !HasShareId(st, row.shareId) && !HasSession(st, row.stripeSessionId)
  }

  lemma AppendKeepsUnique(st: Store, row: StoredCard)
    requires Unique(st) && Fits(st, row)
    ensures Unique(Store(st.rows + [row]))
  {
  }

  /** A table that only grows keeps every row it had, and a lookup by
      session id that found a row before still finds that same row. */
  lemma GrowthKeepsLookups(st: Store, st': Store, sessionId: string)
    requires st.rows <= st'.rows
    requires HasSession(st, sessionId)
    ensures FindBySession(st', sessionId) == FindBySession(st, sessionId)
  {
    var i := FirstWithSession(st.rows, sessionId).value;
    var j := FirstWithSession(st'.rows, sessionId).value;
    assert st'.rows[i] == st.rows[i];
    assert j <= i;
    assert i == j;
  }

  /** A share id that was taken stays taken. */
  lemma GrowthKeepsShareIds(st: Store, st': Store, id: string)
    requires st.rows <= st'.rows && HasShareId(st, id)
    ensures HasShareId(st', id)
  {
    var i :| 0 <= i < |st.rows| && st.rows[i].shareId == id;
    assert st'.rows[i] == st.rows[i];
  }

  /** In a unique table, the lookup by share id finds the very row that
      holds it. */
  lemma FindByShareIdUnique(st: Store, row: StoredCard)
    requires Unique(st) && row in st.rows
    ensures FindByShareId(st, row.shareId) == Some(row)
  {
    var i :| 0 <= i < |st.rows| && st.rows[i] == row;
  }

  /** An id free in a grown table was free before. */
  lemma FreeBeforeGrowth(st: Store, st': Store, id: string)
    requires st.rows <= st'.rows && !HasShareId(st', id)
    ensures !HasShareId(st, id)
  {
    if HasShareId(st, id) {
      GrowthKeepsShareIds(st, st', id);
    }
  }

  /** A row appended for a session nobody held is what the lookup by that
      session finds. */
  lemma FindAppended(st: Store, row: StoredCard)
    requires !HasSession(st, row.stripeSessionId)
    ensures FindBySession(Store(st.rows + [row]), row.stripeSessionId) == Some(row)
  {
    var st' := Store(st.rows + [row]);
    assert st'.rows[|st.rows|] == row;
  }

  // ---- the database as the gateway sees it ----

  /** What happens to one ORM call: it goes through, another writer commits
      `other` just before it (admitted only if it fits the constraints), or
      the call throws. */
  datatype Fault = Clean | Concurrent(other: StoredCard) | Crash(message: string)

  /** The id and the timestamp the database gives a new row. */
  datatype RowDefaults = RowDefaults(id: string, now: Instant)

  /** Everything decided outside the gateway: the `k`-th `nanoid(10)` draw,
      the fault met by the `k`-th ORM call, the defaults of a row created by
      the `k`-th call, and `Date.prototype.toISOString`. */
  datatype Oracle = Oracle(
    nanoid: nat -> ShareId,
    fault: nat -> Fault,
    defaults: nat -> RowDefaults,
    iso: Instant -> string)

  /** One ORM call, as recorded in a trace. */
  datatype Call =
    | FindFirstBySession(sessionId: string)
    | FindUniqueByShareId(shareId: string)
    | Create(data: NewCard)

  /** The `data` of `prisma.card.create`; the columns not listed start out
      null. */
  datatype NewCard = NewCard(
    shareId: ShareId,
    cardKey: string,
    recipientName: string,
    message: string,
    stripeSessionId: string,
    stripeCustomerEmail: Option<string>)

  /** A Prisma error: P2002 with the violated fields in `meta.target`, or
      anything else. */
  datatype DbError = UniqueViolation(target: seq<string>) | Failure(message: string)

  /** The table, the oracle, the ORM calls made so far (whose count numbers
      the next call) and the number of ids drawn so far. */
  datatype Db = Db(store: Store, oracle: Oracle, trace: seq<Call>, draws: nat)

  /** Another writer's row enters the table if the constraints allow it. */
  function Admit(st: Store, f: Fault): (st': Store)
    ensures st.rows <= st'.rows && |st'.rows| <= |st.rows| + 1
    ensures Unique(st) ==> Unique(st')
  {
    if f.Concurrent? && Fits(st, f.other) then Store(st.rows + [f.other])
    else st
  }

  /** Records a call and lets the fault it meets act on the table. */
  function Step(db: Db, call: Call): (r: (Db, Fault))
    ensures r.1 == db.oracle.fault(|db.trace|)
    ensures r.0 == db.(store := Admit(db.store, r.1), trace := db.trace + [call])
  {
    var f := db.oracle.fault(|db.trace|);
    (db.(store := Admit(db.store, f), trace := db.trace + [call]), f)
  }

  /** `nanoid(10)`. */
  function Draw(db: Db): (ShareId, Db) {
    (db.oracle.nanoid(db.draws), db.(draws := db.draws + 1))
  }

  /** `prisma.card.findFirst({ where: { stripeSessionId } })`. */
  function FindFirst(db: Db, sessionId: string): (r: (Db, Result<Option<StoredCard>, DbError>))
    ensures r.0.trace == db.trace + [FindFirstBySession(sessionId)]
    ensures r.0.store == Admit(db.store, db.oracle.fault(|db.trace|)) && r.0.draws == db.draws
    ensures r.1.Err? <==> db.oracle.fault(|db.trace|).Crash?
    ensures r.1.Ok? ==> r.1.value == FindBySession(r.0.store, sessionId)
  {
    var (db1, f) := Step(db, FindFirstBySession(sessionId));
    if f.Crash? then (db1, Err(Failure(f.message))) else (db1, Ok(FindBySession(db1.store, sessionId)))
  }

  /** `prisma.card.findUnique({ where: { shareId } })`. */
  function FindUnique(db: Db, id: string): (r: (Db, Result<Option<StoredCard>, DbError>))
    ensures r.0.trace == db.trace + [FindUniqueByShareId(id)]
    ensures r.0.store == Admit(db.store, db.oracle.fault(|db.trace|)) && r.0.draws == db.draws
    ensures r.1.Err? <==> db.oracle.fault(|db.trace|).Crash?
    ensures r.1.Ok? ==> r.1.value == FindByShareId(r.0.store, id)
  {
    var (db1, f) := Step(db, FindUniqueByShareId(id));
    if f.Crash? then (db1, Err(Failure(f.message))) else (db1, Ok(FindByShareId(db1.store, id)))
  }

  /** The row `create` writes for `data` with the given defaults. */
  function NewRow(data: NewCard, d: RowDefaults): StoredCard {
    StoredCard(d.id, data.shareId, data.cardKey, data.recipientName, data.message, data.stripeSessionId,
      data.stripeCustomerEmail, None, None, None, None, None, d.now, d.now)
  }

  /** `prisma.card.create({ data })`: the row is appended unless the call
      throws or the row would break a unique constraint, in which case the
      P2002 error names the share id first (the order of the constraints in
      the table). */
  function CreateRow(db: Db, data: NewCard): (r: (Db, Result<StoredCard, DbError>))
    ensures r.0.trace == db.trace + [Create(data)] && r.0.draws == db.draws
    ensures var st := Admit(db.store, db.oracle.fault(|db.trace|));
      var row := NewRow(data, db.oracle.defaults(|db.trace|));
      if r.1.Ok? then r.1.value == row && Fits(st, row) && r.0.store == Store(st.rows + [row])
      else r.0.store == st
    ensures r.1.Err? && !db.oracle.fault(|db.trace|).Crash? ==> r.1.error.UniqueViolation?
    ensures r.1.Err? && r.1.error.UniqueViolation? && r.1.error.target == ["shareId"]
      ==> HasShareId(r.0.store, data.shareId)
    ensures r.1.Err? && r.1.error.UniqueViolation? && r.1.error.target == ["stripeSessionId"]
      ==> HasSession(r.0.store, data.stripeSessionId)
    ensures r.1.Err? && r.1.error.UniqueViolation? ==>
      r.1.error.target == ["shareId"] || r.1.error.target == ["stripeSessionId"]
  {
    var (db1, f) := Step(db, Create(data));
    var row := NewRow(data, db.oracle.defaults(|db.trace|));
    if f.Crash? then (db1, Err(Failure(f.message)))
    else if HasShareId(db1.store, row.shareId) then (db1, Err(UniqueViolation(["shareId"])))
    else if HasSession(db1.store, row.stripeSessionId) then (db1, Err(UniqueViolation(["stripeSessionId"])))
    else (db1.(store := Store(db1.store.rows + [row])), Ok(row))
  }

  /** Every call leaves the table grown, never shrunk or rewritten, and its
      constraints intact. */
  ghost predicate Grows(db: Db, db': Db) {
    db.store.rows <= db'.store.rows
    && (Unique(db.store) ==> Unique(db'.store))
    && db.trace <= db'.trace
    && db.draws <= db'.draws
    && db'.oracle == db.oracle
  }

  lemma GrowsTransitive(a: Db, b: Db, c: Db)
    requires Grows(a, b) && Grows(b, c)
    ensures Grows(a, c)
  {
  }

  lemma CreateRowGrows(db: Db, data: NewCard)
    ensures Grows(db, CreateRow(db, data).0)
  {
    var st := Admit(db.store, db.oracle.fault(|db.trace|));
    var row := NewRow(data, db.oracle.defaults(|db.trace|));
    if CreateRow(db, data).1.Ok? {
      if Unique(db.store) {
        AppendKeepsUnique(st, row);
      }
    }
  }
}
