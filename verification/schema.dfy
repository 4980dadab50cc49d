/**
  The SQLite tables that hold portal sessions and OpenID Connect state, and the
  SQL statements that nass runs on them.

  One function models one statement: a failed constraint (PRIMARY KEY, UNIQUE,
  FOREIGN KEY) makes an INSERT return None and leaves the tables alone; the
  ON DELETE CASCADE rules are part of the DELETE that triggers them.
 */
module Schema {
  import opened Wrappers

  type Id = nat
  type UserId = nat
  type ClientId = nat

  /** Instants and durations are counted in nanoseconds, as in Go. */
  type Time = int

  const SECOND: Time := 1_000_000_000
  const MINUTE: Time := 60 * SECOND
  const HOUR: Time := 60 * MINUTE
  const DAY: Time := 24 * HOUR

  const ACCESS_TOKEN_TTL: Time := HOUR
  const REFRESH_TOKEN_TTL: Time := 30 * DAY
  const AUTH_REQUEST_TTL: Time := 30 * MINUTE
  const AUTH_CODE_TTL: Time := 5 * MINUTE
  const SESSION_TTL: Time := 7 * DAY

  datatype UserRow = UserRow(isAdmin: bool, passwordHash: nat)
  datatype SessionRow = SessionRow(user: UserId, expires: Time)
  /** A PKCE challenge and whether its method is S256. */
  datatype Challenge = Challenge(text: string, s256: bool)

  /** What a client says about itself when it asks for authorization. */
  datatype Details = Details(
    redirectUri: string, state: string, nonce: string, scopes: seq<string>,
    responseType: string, responseMode: string, challenge: Option<Challenge>)

  datatype RequestRow = RequestRow(
    client: ClientId, user: Option<UserId>, details: Details, authTime: Option<Time>, completed: bool, expires: Time)
  datatype CodeRow = CodeRow(request: Id, expires: Time)
  datatype AccessRow = AccessRow(
    client: ClientId, user: UserId, refresh: Option<Id>,
    audience: seq<ClientId>, scopes: seq<string>, expires: Time)
  datatype RefreshRow = RefreshRow(
    user: UserId, client: ClientId, scopes: seq<string>,
    audience: seq<ClientId>, authTime: Time, expires: Time)

  /** Clients are kept with the app that owns them; an app owns at most one. */
  datatype DB = DB(
    users: map<UserId, UserRow>,
    clients: map<ClientId, string>,
    sessions: map<Id, SessionRow>,
    requests: map<Id, RequestRow>,
    codes: map<Id, CodeRow>,
    access: map<Id, AccessRow>,
    refresh: map<Id, RefreshRow>)

  const EMPTY_DB := DB(map[], map[], map[], map[], map[], map[], map[])

  /** The rows of `m` that do not match the WHERE clause `p`. */
  function Without<V>(m: map<Id, V>, p: (Id, V) -> bool): map<Id, V> {
    map id | id in m && !p(id, m[id]) :: m[id]
  }

  /**
    `expires_at > CURRENT_TIMESTAMP`. The right-hand side has no fraction of a
    second and the comparison is one of texts, so a row still matches until the
    second in which it expires is over.
   */
  predicate AfterCurrentTimestamp(expires: Time, now: Time) {
    expires >= now - now % SECOND
  }

  // --- INSERT ---

  function InsertAccess(db: DB, id: Id, row: AccessRow): Option<DB> {
    if id in db.access || row.user !in db.users then None
    else Some(db.(access := db.access[id := row]))
  }

  function InsertRefresh(db: DB, id: Id, row: RefreshRow): Option<DB> {
    if id in db.refresh || row.user !in db.users then None
    else Some(db.(refresh := db.refresh[id := row]))
  }

  function InsertSession(db: DB, id: Id, row: SessionRow): Option<DB> {
    if id in db.sessions || row.user !in db.users then None
    else Some(db.(sessions := db.sessions[id := row]))
  }

  function InsertRequest(db: DB, id: Id, row: RequestRow): Option<DB> {
    if id in db.requests then None
    else Some(db.(requests := db.requests[id := row]))
  }

  predicate HasCode(db: DB, request: Id) {
    exists code | code in db.codes :: db.codes[code].request == request
  }

  function InsertCode(db: DB, code: Id, row: CodeRow): Option<DB> {
    if code in db.codes || row.request !in db.requests || HasCode(db, row.request) then None
    else Some(db.(codes := db.codes[code := row]))
  }

  function InsertUser(db: DB, id: UserId, row: UserRow): Option<DB> {
    if id in db.users then None else Some(db.(users := db.users[id := row]))
  }

  predicate HasClient(clients: map<ClientId, string>, app: string) {
    exists client | client in clients :: clients[client] == app
  }

  /** The client the app owns, if any. */
  function ClientOf(clients: map<ClientId, string>, app: string): (r: Option<ClientId>)
    ensures r.Some? <==> HasClient(clients, app)
    ensures r.Some? ==> r.value in clients && clients[r.value] == app
  {
    if !HasClient(clients, app) then None else
    var owned := set client | client in clients && clients[client] == app;
    assert owned != {} by {
      var client :| client in clients && clients[client] == app;
      assert client in owned;
    }
    Some(Least(owned))
  }

  predicate LowerBound(m: nat, s: set<nat>) {
    forall x | x in s :: m <= x
  }

  function Least(s: set<nat>): (m: nat)
    requires s != {}
    ensures m in s && LowerBound(m, s)
  {
    LeastExists(s);
    var m :| m in s && LowerBound(m, s);
    m
  }

  lemma {:induction false} LeastExists(s: set<nat>)
    requires s != {}
    ensures exists m :: m in s && LowerBound(m, s)
  {
    var y :| y in s;
    var others := s - {y};
    if others != {} {
      LeastExists(others);
      var m :| m in others && LowerBound(m, others);
      forall x | x in s
        ensures (if y < m then y else m) <= x
      {
        assert x == y || x in others;
      }
      assert LowerBound(if y < m then y else m, s);
    } else {
      assert s == {y};
      assert LowerBound(y, s);
    }
  }

  function InsertClient(db: DB, client: ClientId, app: string): Option<DB> {
    if client in db.clients || HasClient(db.clients, app) then None
    else Some(db.(clients := db.clients[client := app]))
  }

  // --- DELETE ---

  function DeleteAccess(db: DB, id: Id): DB { db.(access := db.access - {id}) }

  function DeleteAccessTiedTo(db: DB, refresh: Id, spare: Option<Id>): DB {
    db.(access := Without(db.access, (id: Id, a: AccessRow) => a.refresh == Some(refresh) && Some(id) != spare))
  }

  function DeleteAccessOf(db: DB, user: UserId, client: ClientId): DB {
    db.(access := Without(db.access, (id: Id, a: AccessRow) => a.user == user && a.client == client))
  }

  function DeleteAccessOfUser(db: DB, user: UserId): DB {
    db.(access := Without(db.access, (id: Id, a: AccessRow) => a.user == user))
  }

  function DeleteAccessOfClient(db: DB, client: ClientId): DB {
    db.(access := Without(db.access, (id: Id, a: AccessRow) => a.client == client))
  }

  function DeleteRefresh(db: DB, id: Id): DB { db.(refresh := db.refresh - {id}) }

  function DeleteRefreshOf(db: DB, user: UserId, client: ClientId): DB {
    db.(refresh := Without(db.refresh, (id: Id, r: RefreshRow) => r.user == user && r.client == client))
  }

  function DeleteRefreshOfUser(db: DB, user: UserId): DB {
    db.(refresh := Without(db.refresh, (id: Id, r: RefreshRow) => r.user == user))
  }

  function DeleteRefreshOfClient(db: DB, client: ClientId): DB {
    db.(refresh := Without(db.refresh, (id: Id, r: RefreshRow) => r.client == client))
  }

  function DeleteSession(db: DB, id: Id): DB { db.(sessions := db.sessions - {id}) }

  function DeleteSessionsOfUser(db: DB, user: UserId): DB {
    db.(sessions := Without(db.sessions, (id: Id, s: SessionRow) => s.user == user))
  }

  function DeleteClientRow(db: DB, client: ClientId): DB { db.(clients := db.clients - {client}) }

  /** oidc_auth_codes cascades on its request. */
  function DeleteRequest(db: DB, id: Id): DB {
    db.(requests := db.requests - {id},
        codes := Without(db.codes, (code: Id, c: CodeRow) => c.request == id))
  }

  /** Sessions, access tokens and refresh tokens cascade on their user. */
  function DeleteUser(db: DB, user: UserId): DB {
    DeleteSessionsOfUser(DeleteAccessOfUser(DeleteRefreshOfUser(db, user), user), user)
      .(users := db.users - {user})
  }

  datatype Table = Sessions | Requests | Codes | Access | Refresh

  /** `DELETE FROM table WHERE expires_at < cutoff`, with the cascade from requests to codes. */
  function DeleteExpired(db: DB, table: Table, cutoff: Time): DB {
    match table
    case Sessions => db.(sessions := Without(db.sessions, (id: Id, s: SessionRow) => s.expires < cutoff))
    case Requests =>
      var kept := Without(db.requests, (id: Id, r: RequestRow) => r.expires < cutoff);
      db.(requests := kept,
          codes := Without(db.codes, (code: Id, c: CodeRow) => c.request in db.requests && c.request !in kept))
    case Codes => db.(codes := Without(db.codes, (code: Id, c: CodeRow) => c.expires < cutoff))
    case Access => db.(access := Without(db.access, (id: Id, a: AccessRow) => a.expires < cutoff))
    case Refresh => db.(refresh := Without(db.refresh, (id: Id, r: RefreshRow) => r.expires < cutoff))
  }

  // --- UPDATE ---

  /** `auth_time = CURRENT_TIMESTAMP`, which is exact to the second. */
  function CompleteRequest(db: DB, id: Id, user: UserId, now: Time): DB
    requires id in db.requests
  {
    db.(requests := db.requests[id :=
      db.requests[id].(user := Some(user), authTime := Some(now - now % SECOND), completed := true)])
  }

  function UpdateUser(db: DB, id: UserId, row: UserRow): DB
    requires id in db.users
  {
    db.(users := db.users[id := row])
  }
}
