/**
  What the statements change in the tables, told by rows: which constraints make an
  insertion fail, that an insertion loses nothing, and exactly what a deletion takes.
 */
module Effects {
  import opened Wrappers
  import opened Schema
  import opened Calls
  import Ties

  // --- insertions ---

  /** The call inserts a row with its next statement. */
  predicate Inserting(c: Call) {
    match c
    case Issue(i) => !i.LoadRefresh? && !i.RotateTx?
    case Request(r) => r.NewRequest? || r.SaveCode?
    case Check(q) => q.IssueSession?
    case Admin(a) => a.CreateUser? || a.Provision?
    case _ => false
  }

  predicate KnownSubject(db: DB, req: TokenRequest) { req.subject.Some? && req.subject.value in db.users }

  /** Nobody stands in the way: keys are new, what a row refers to is stored, and what is unique is not taken. */
  ghost predicate Admissible(db: DB, c: Call)
    requires Inserting(c)
  {
    match c
    case Issue(IssueAccess(req, access)) => KnownSubject(db, req) && access !in db.access
    case Issue(IssuePair(req, access, _)) => KnownSubject(db, req) && access !in db.access
    case Issue(Rotate(req, _, access, _)) => KnownSubject(db, req) && access !in db.access
    case Issue(PairRefresh(req, _, refresh, _)) => KnownSubject(db, req) && refresh !in db.refresh
    case Request(NewRequest(id, _, _, _)) => id !in db.requests
    case Request(SaveCode(id, code)) =>
      code !in db.codes && id in db.requests && forall other | other in db.codes :: db.codes[other].request != id
    case Check(IssueSession(session, user)) => session !in db.sessions && user in db.users
    case Admin(CreateUser(user, _)) => user !in db.users
    case Admin(Provision(app, client)) =>
      app != "" && client !in db.clients && forall other | other in db.clients :: db.clients[other] != app
  }

  /** An insertion fails exactly if a constraint stands in its way, and then it changes nothing. */
  lemma InsertFailsExactly(db: DB, c: Call, t: Time)
    requires Inserting(c)
    ensures Step(db, c, t).next == Finish(Failed) <==> !Admissible(db, c)
    ensures !Admissible(db, c) ==> Step(db, c, t).db == db
  {}

  /** There is one more row, under this key, and the old ones are as they were. */
  ghost predicate OneMore<K(!new), V>(before: map<K, V>, after: map<K, V>, key: K) {
    after.Keys == before.Keys + {key} && forall id | id in before :: after[id] == before[id]
  }

  ghost predicate AddsOne(db: DB, c: Call, after: DB)
    requires Inserting(c)
  {
    match c
    case Issue(PairRefresh(_, _, refresh, _)) => OneMore(db.refresh, after.refresh, refresh) && after.(refresh := db.refresh) == db
    case Issue(i) => OneMore(db.access, after.access, i.access) && after.(access := db.access) == db
    case Request(NewRequest(id, _, _, _)) => OneMore(db.requests, after.requests, id) && after.(requests := db.requests) == db
    case Request(SaveCode(_, code)) => OneMore(db.codes, after.codes, code) && after.(codes := db.codes) == db
    case Check(IssueSession(session, _)) => OneMore(db.sessions, after.sessions, session) && after.(sessions := db.sessions) == db
    case Admin(CreateUser(user, account)) =>
      OneMore(db.users, after.users, user) && after.users[user] == account && after.(users := db.users) == db
    case Admin(Provision(app, client)) =>
      OneMore(db.clients, after.clients, client) && after.clients[client] == app && after.(clients := db.clients) == db
    case _ => true
  }

  lemma IssueAddsOne(db: DB, c: IssueCall, t: Time)
    requires Inserting(Issue(c)) && Admissible(db, Issue(c))
    ensures AddsOne(db, Issue(c), IssueStep(db, c, t).db)
  {}

  lemma RequestAddsOne(db: DB, c: RequestCall, t: Time)
    requires Inserting(Request(c)) && Admissible(db, Request(c))
    ensures AddsOne(db, Request(c), RequestStep(db, c, t).db)
  {}

  lemma SessionAddsOne(db: DB, c: CheckCall, t: Time)
    requires Inserting(Check(c)) && Admissible(db, Check(c))
    ensures AddsOne(db, Check(c), CheckStep(db, c, t).db)
  {}

  lemma AdminAddsOne(db: DB, c: AdminCall, t: Time)
    requires Inserting(Admin(c)) && Admissible(db, Admin(c))
    ensures AddsOne(db, Admin(c), AdminStep(db, c, t).db)
  {}

  /** An insertion loses no row, and adds one in one table, under the key the call brings. */
  lemma InsertAddsOne(db: DB, c: Call, t: Time)
    requires Inserting(c) && Admissible(db, c)
    ensures AddsOne(db, c, Step(db, c, t).db)
  {
    hide AddsOne, IssueStep, RequestStep, CheckStep, AdminStep, Admissible;
    match c
    case Issue(i) => IssueAddsOne(db, i, t);
    case Request(r) => RequestAddsOne(db, r, t);
    case Check(q) => SessionAddsOne(db, q, t);
    case Admin(a) => AdminAddsOne(db, a, t);
  }

  // --- deletions ---

  /** Exactly the rows that satisfy `keep` are left. */
  ghost predicate Left<V(!new)>(before: map<Id, V>, after: map<Id, V>, keep: (Id, V) -> bool) {
    && (forall id :: id in after <==> id in before && keep(id, before[id]))
    && (forall id | id in after :: after[id] == before[id])
  }

  /** Deleting a request takes it and its code. */
  lemma RequestDeletionIsExact(db: DB, id: Id, t: Time)
    ensures var after := Step(db, Request(DeleteRequestById(id)), t).db;
      && Left(db.requests, after.requests, (k: Id, r: RequestRow) => k != id)
      && Left(db.codes, after.codes, (k: Id, c: CodeRow) => c.request != id)
      && after.(requests := db.requests, codes := db.codes) == db
  {}

  /** Revoking a session, like dropping an expired one, takes that session. */
  lemma SessionRevocationIsExact(db: DB, id: Id, t: Time)
    ensures var after := Step(db, Check(RevokeSession(id)), t).db;
      && Left(db.sessions, after.sessions, (k: Id, s: SessionRow) => k != id)
      && after.(sessions := db.sessions) == db
      && Step(db, Check(DropSession(id)), t).db == after
  {}

  /** A rotation takes the old refresh token and the access tokens tied to it, but not the new one, and adds the new pair's row. */
  lemma RotationIsExact(db: DB, current: Id, scopes: seq<string>, access: Id, refresh: Id, expires: Time, t: Time)
    requires current in db.refresh && t <= db.refresh[current].expires && db.refresh[current].user in db.users
    requires refresh !in db.refresh
    ensures var e := Step(db, Issue(RotateTx(current, scopes, access, refresh, expires)), t);
      && e.next == Finish(PairIssued(access, refresh, expires))
      && refresh in e.db.refresh
      && Left(db.refresh, e.db.refresh - {refresh}, (k: Id, r: RefreshRow) => k != current)
      && Left(db.access, e.db.access, (k: Id, a: AccessRow) => a.refresh != Some(current) || k == access)
      && e.db.(refresh := db.refresh, access := db.access) == db
  {}

  lemma TiedExactly(db: DB, token: Id)
    ensures var after := DeleteAccessTiedTo(db, token, None);
      Left(db.access, after.access, (k: Id, a: AccessRow) => a.refresh != Some(token)) && after.(access := db.access) == db
  {}

  ghost predicate AccessGoes(db: DB, token: Id, client: ClientId) { token in db.access && db.access[token].client == client }

  ghost predicate RefreshGoes(db: DB, token: Id, client: ClientId) {
    token !in db.access && token in db.refresh && db.refresh[token].client == client
  }

  ghost predicate RevokesExactly(db: DB, after: DB, token: Id, client: ClientId) {
    var access, refresh := AccessGoes(db, token, client), RefreshGoes(db, token, client);
    && Left(db.access, after.access, (k: Id, a: AccessRow) => !(access && k == token) && !(refresh && a.refresh == Some(token)))
    && Left(db.refresh, after.refresh, (k: Id, row: RefreshRow) => !(refresh && k == token))
    && after.(refresh := db.refresh, access := db.access) == db
  }

  lemma AccessRevoked(db: DB, token: Id, client: ClientId)
    requires AccessGoes(db, token, client)
    ensures RevokesExactly(db, Ties.Revoked(db, token, client).db, token, client)
  {}

  lemma RefreshRevoked(db: DB, token: Id, client: ClientId)
    requires RefreshGoes(db, token, client)
    ensures RevokesExactly(db, Ties.Revoked(db, token, client).db, token, client)
  {
    hide DeleteAccessTiedTo;
    TiedExactly(DeleteRefresh(db, token), token);
  }

  lemma NothingRevoked(db: DB, token: Id, client: ClientId)
    requires !AccessGoes(db, token, client) && !RefreshGoes(db, token, client)
    ensures RevokesExactly(db, Ties.Revoked(db, token, client).db, token, client)
  {
    hide DeleteAccessTiedTo;
  }

  /**
    Revoking an access token takes that token; revoking a refresh token takes it and the
    access tokens tied to it; the token of another client and an unknown one take nothing.
   */
  lemma RevocationIsExact(db: DB, token: Id, client: ClientId, clock: seq<Time>)
    requires |clock| >= 4
    ensures var r := Run(db, Withdraw(Revoke(token, client)), clock);
      && RevokesExactly(db, r.db, token, client)
      && r.reply == if AccessGoes(db, token, client) || RefreshGoes(db, token, client) || (token !in db.access && token !in db.refresh)
                    then Ok else Failed
  {
    Ties.RevokeOutcome(db, token, client, clock);
    hide Run, RevokesExactly;
    if AccessGoes(db, token, client) {
      AccessRevoked(db, token, client);
    } else if RefreshGoes(db, token, client) {
      RefreshRevoked(db, token, client);
    } else {
      NothingRevoked(db, token, client);
    }
  }

  /** A purge takes exactly what expired before the cutoff, and the codes of the requests it takes. */
  lemma PurgeIsExact(db: DB, table: Table, cutoff: Time, rest: seq<Table>, t: Time)
    ensures var after := Step(db, Admin(Purge(cutoff, table, rest)), t).db;
      match table
      case Sessions =>
        Left(db.sessions, after.sessions, (k: Id, s: SessionRow) => cutoff <= s.expires) && after.(sessions := db.sessions) == db
      case Requests =>
        && Left(db.requests, after.requests, (k: Id, r: RequestRow) => cutoff <= r.expires)
        && Left(db.codes, after.codes, (k: Id, c: CodeRow) => c.request in db.requests ==> cutoff <= db.requests[c.request].expires)
        && after.(requests := db.requests, codes := db.codes) == db
      case Codes => Left(db.codes, after.codes, (k: Id, c: CodeRow) => cutoff <= c.expires) && after.(codes := db.codes) == db
      case Access => Left(db.access, after.access, (k: Id, a: AccessRow) => cutoff <= a.expires) && after.(access := db.access) == db
      case Refresh =>
        Left(db.refresh, after.refresh, (k: Id, r: RefreshRow) => cutoff <= r.expires) && after.(refresh := db.refresh) == db
  {}

  // --- lifetimes ---

  /** An hour for access tokens, thirty days for refresh tokens, thirty and five minutes for requests and codes, a week for sessions. */
  lemma Lifetimes()
    ensures SECOND == 1_000_000_000
    ensures ACCESS_TOKEN_TTL == 3_600 * 1_000_000_000 && REFRESH_TOKEN_TTL == 2_592_000 * 1_000_000_000
    ensures AUTH_REQUEST_TTL == 1_800 * 1_000_000_000 && AUTH_CODE_TTL == 300 * 1_000_000_000
    ensures SESSION_TTL == 604_800 * 1_000_000_000 && DAY == 86_400 * 1_000_000_000
  {}
}
