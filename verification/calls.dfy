/**
  Every storage operation of nass as a sequence of SQL statements.

  A `Call` is an operation in progress: its local variables and the statement it
  runs next. `Step` runs that one statement (or that one transaction) and says
  what is left to do. Between two statements of one call, any other call may run.
 */
module Calls {
  import opened Wrappers
  import opened Schema

  /** What the OpenID Connect library passes when it asks for tokens. */
  datatype TokenRequest = TokenRequest(
    client: ClientId, subject: Option<UserId>,
    audience: seq<ClientId>, scopes: seq<string>, authTime: Option<Time>)

  /** A refresh token as `TokenRequestByRefreshToken` returned it to the library. */
  datatype RefreshRequest = RefreshRequest(
    id: Id, client: ClientId, user: UserId,
    scopes: seq<string>, audience: seq<ClientId>, authTime: Time)

  datatype Reply =
    | Failed
    | Ok
    | AccessIssued(access: Id, expires: Time)
    | PairIssued(access: Id, refresh: Id, expires: Time)
    | RefreshFound(request: RefreshRequest)
    | RequestFound(id: Id, row: RequestRow)
    | TokenAccepted(token: AccessRow)
    | SessionFound(session: Id, user: UserId, expires: Time)

  /** Issuing, looking up and rotating tokens. */
  datatype IssueCall =
    | IssueAccess(req: TokenRequest, access: Id)
    | IssuePair(req: TokenRequest, access: Id, refresh: Id)
    | PairRefresh(req: TokenRequest, access: Id, refresh: Id, expires: Time)
    | LoadRefresh(token: Id)
    | Rotate(req: TokenRequest, current: Id, access: Id, refresh: Id)
    | RotateTx(currentId: Id, scopes: seq<string>, access: Id, refresh: Id, expires: Time)

  /** Revoking one token, and ending the tokens of one user at one client. */
  datatype WithdrawCall =
    | Revoke(token: Id, client: ClientId)
    | RevokeAccess(token: Id)
    | RevokeFindRefresh(token: Id, client: ClientId)
    | RevokeRefresh(token: Id)
    | RevokeTied(token: Id)
    | Terminate(subject: Option<UserId>, client: ClientId)
    | TerminateRefresh(user: UserId, client: ClientId)

  /** Auth requests and their codes. */
  datatype RequestCall =
    | NewRequest(id: Id, client: ClientId, subject: Option<UserId>, details: Details)
    | LoadRequest(id: Id)
    | Complete(id: Id, user: UserId)
    | DeleteRequestById(id: Id)
    | SaveCode(id: Id, code: Id)
    | ByCode(code: Id)

  /** Portal sessions, and the questions an access token answers. */
  datatype CheckCall =
    | IssueSession(session: Id, user: UserId)
    | LookupSession(session: Id)
    | DropSession(session: Id)
    | RevokeSession(session: Id)
    | Userinfo(token: Id)
    | Introspect(token: Id, client: ClientId)
    | GetUser(user: UserId, reply: Reply)

  /** Users, clients and housekeeping. */
  datatype AdminCall =
    | CreateUser(user: UserId, account: UserRow)
    | SetPassword(user: UserId, length: nat, hash: nat)
    | SetAdmin(user: UserId, admin: bool)
    | RemoveUser(user: UserId)
    | Provision(app: string, client: ClientId)
    | DeleteClient(app: string)
    | Purge(cutoff: Time, table: Table, rest: seq<Table>)

  datatype Call =
    | Issue(issue: IssueCall)
    | Withdraw(withdraw: WithdrawCall)
    | Request(request: RequestCall)
    | Check(check: CheckCall)
    | Admin(admin: AdminCall)

  datatype Outcome = Continue(call: Call) | Finish(reply: Reply)

  /** A statement's effect on the tables and what its call does next. */
  datatype Effect = Effect(db: DB, next: Outcome)

  /** A finished call: the tables it left and what it answered. */
  datatype Completed = Completed(db: DB, reply: Reply)

  /** Operations as their callers start them; the other calls are later statements of these. */
  predicate Entry(c: Call) {
    match c
    case Issue(i) => !i.PairRefresh? && !i.RotateTx?
    case Withdraw(w) => w.Revoke? || w.Terminate?
    case Request(_) => true
    case Check(q) => !q.DropSession? && !q.GetUser?
    case Admin(a) =>
      a.Purge? ==> // the purge of the token store or the one of the session store
        || (a.table == Requests && a.rest == [Codes, Access, Refresh])
        || (a.table == Sessions && a.rest == [])
  }

  /** Ids the call has drawn at random and may still insert as the key of a new row. */
  function Reserved(c: Call): set<Id> {
    match c
    case Issue(i) => (
      match i
      case IssueAccess(_, access) => {access}
      case IssuePair(_, access, refresh) => {access, refresh}
      case PairRefresh(_, _, refresh, _) => {refresh}
      case LoadRefresh(_) => {}
      case Rotate(_, _, access, refresh) => {access, refresh}
      case RotateTx(_, _, _, refresh, _) => {refresh})
    case Request(NewRequest(id, _, _, _)) => {id}
    case Request(SaveCode(_, code)) => {code}
    case Check(IssueSession(session, _)) => {session}
    case _ => {}
  }

  /** The library passes on the refresh token that it looked up, possibly with other scopes. */
  ghost predicate SpeaksFor(req: TokenRequest, current: Id, loaded: set<RefreshRequest>) {
    exists r :: r in loaded
      && r.id == current && req.subject == Some(r.user) && req.client == r.client && req.audience == r.audience
  }

  predicate DrawsDistinct(c: Call) {
    c.Issue? && (c.issue.IssuePair? || c.issue.Rotate?) ==> c.issue.access != c.issue.refresh
  }

  /** An upper bound on the statements the call still runs. */
  function Rank(c: Call): nat {
    match c
    case Issue(i) => if i.IssuePair? || i.Rotate? then 2 else 1
    case Withdraw(w) =>
      if w.Revoke? then 4 else if w.RevokeFindRefresh? then 3
      else if w.RevokeRefresh? || w.Terminate? then 2 else 1
    case Request(r) => if r.ByCode? then 2 else 1
    case Check(q) => if q.GetUser? || q.DropSession? || q.RevokeSession? then 1 else 2
    case Admin(a) => if a.Purge? then 1 + |a.rest| else 1
  }

  // --- statements ---

  function AccessRowFor(req: TokenRequest, user: UserId, refresh: Option<Id>, t: Time): AccessRow {
    AccessRow(req.client, user, refresh, req.audience, req.scopes, t + ACCESS_TOKEN_TTL)
  }

  function RefreshRowFor(req: TokenRequest, user: UserId, t: Time): RefreshRow {
    RefreshRow(user, req.client, req.scopes, req.audience,
               if req.authTime.Some? then req.authTime.value else t, t + REFRESH_TOKEN_TTL)
  }

  function RotatedRow(current: RefreshRow, scopes: seq<string>, t: Time): RefreshRow {
    RefreshRow(current.user, current.client, scopes, current.audience, current.authTime, t + REFRESH_TOKEN_TTL)
  }

  function IssueStep(db: DB, c: IssueCall, t: Time): Effect {
    match c
    case IssueAccess(req, access) =>
      if req.subject.None? then Effect(db, Finish(Failed)) else
      var row := AccessRowFor(req, req.subject.value, None, t);
      (match InsertAccess(db, access, row)
       case None => Effect(db, Finish(Failed))
       case Some(db') => Effect(db', Finish(AccessIssued(access, row.expires))))
    case IssuePair(req, access, refresh) =>
      if req.subject.None? then Effect(db, Finish(Failed)) else
      var row := AccessRowFor(req, req.subject.value, Some(refresh), t);
      (match InsertAccess(db, access, row)
       case None => Effect(db, Finish(Failed))
       case Some(db') => Effect(db', Continue(Issue(PairRefresh(req, access, refresh, row.expires)))))
    case PairRefresh(req, access, refresh, expires) =>
      if req.subject.None? then Effect(db, Finish(Failed)) else
      (match InsertRefresh(db, refresh, RefreshRowFor(req, req.subject.value, t))
       case None => Effect(db, Finish(Failed))
       case Some(db') => Effect(db', Finish(PairIssued(access, refresh, expires))))
    case LoadRefresh(token) =>
      if token !in db.refresh || db.refresh[token].expires < t then Effect(db, Finish(Failed)) else
      var r := db.refresh[token];
      Effect(db, Finish(RefreshFound(RefreshRequest(token, r.client, r.user, r.scopes, r.audience, r.authTime))))
    case Rotate(req, current, access, refresh) =>
      if req.subject.None? then Effect(db, Finish(Failed)) else
      var row := AccessRowFor(req, req.subject.value, Some(refresh), t);
      (match InsertAccess(db, access, row)
       case None => Effect(db, Finish(Failed))
       case Some(db') => Effect(db', Continue(Issue(RotateTx(current, req.scopes, access, refresh, row.expires)))))
    case RotateTx(currentId, scopes, access, refresh, expires) =>
      if currentId !in db.refresh || db.refresh[currentId].expires < t then Effect(db, Finish(Failed)) else
      var row := RotatedRow(db.refresh[currentId], scopes, t);
      (match InsertRefresh(DeleteRefresh(db, currentId), refresh, row)
       case None => Effect(db, Finish(Failed))  // rolled back
       case Some(db') =>
         Effect(DeleteAccessTiedTo(db', currentId, Some(access)), Finish(PairIssued(access, refresh, expires))))
  }

  function WithdrawStep(db: DB, c: WithdrawCall, t: Time): Effect {
    match c
    case Revoke(token, client) =>
      if token !in db.access then Effect(db, Continue(Withdraw(RevokeFindRefresh(token, client))))
      else if db.access[token].client != client then Effect(db, Finish(Failed))
      else Effect(db, Continue(Withdraw(RevokeAccess(token))))
    case RevokeAccess(token) => Effect(DeleteAccess(db, token), Finish(Ok))
    case RevokeFindRefresh(token, client) =>
      if token !in db.refresh then Effect(db, Finish(Ok))
      else if db.refresh[token].client != client then Effect(db, Finish(Failed))
      else Effect(db, Continue(Withdraw(RevokeRefresh(token))))
    case RevokeRefresh(token) => Effect(DeleteRefresh(db, token), Continue(Withdraw(RevokeTied(token))))
    case RevokeTied(token) => Effect(DeleteAccessTiedTo(db, token, None), Finish(Ok))
    case Terminate(subject, client) =>
      if subject.None? then Effect(db, Finish(Failed))
      else Effect(DeleteAccessOf(db, subject.value, client), Continue(Withdraw(TerminateRefresh(subject.value, client))))
    case TerminateRefresh(user, client) => Effect(DeleteRefreshOf(db, user, client), Finish(Ok))
  }

  function RequestStep(db: DB, c: RequestCall, t: Time): Effect {
    match c
    case NewRequest(id, client, subject, details) =>
      (match InsertRequest(db, id, RequestRow(client, subject, details, None, false, t + AUTH_REQUEST_TTL))
       case None => Effect(db, Finish(Failed))
       case Some(db') => Effect(db', Finish(RequestFound(id, db'.requests[id]))))
    case LoadRequest(id) =>
      if id in db.requests && AfterCurrentTimestamp(db.requests[id].expires, t)
      then Effect(db, Finish(RequestFound(id, db.requests[id])))
      else Effect(db, Finish(Failed))
    case Complete(id, user) =>
      if id !in db.requests then Effect(db, Finish(Failed))
      else Effect(CompleteRequest(db, id, user, t), Finish(Ok))
    case DeleteRequestById(id) => Effect(DeleteRequest(db, id), Finish(Ok))
    case SaveCode(id, code) =>
      (match InsertCode(db, code, CodeRow(id, t + AUTH_CODE_TTL))
       case None => Effect(db, Finish(Failed))
       case Some(db') => Effect(db', Finish(Ok)))
    case ByCode(code) =>
      if code in db.codes && AfterCurrentTimestamp(db.codes[code].expires, t)
      then Effect(db, Continue(Request(LoadRequest(db.codes[code].request))))
      else Effect(db, Finish(Failed))
  }

  function CheckStep(db: DB, c: CheckCall, t: Time): Effect {
    match c
    case IssueSession(session, user) =>
      var row := SessionRow(user, t + SESSION_TTL);
      (match InsertSession(db, session, row)
       case None => Effect(db, Finish(Failed))
       case Some(db') => Effect(db', Continue(Check(GetUser(user, SessionFound(session, user, row.expires))))))
    case LookupSession(session) =>
      if session !in db.sessions then Effect(db, Finish(Failed))
      else if t > db.sessions[session].expires then Effect(db, Continue(Check(DropSession(session))))
      else
        var row := db.sessions[session];
        Effect(db, Continue(Check(GetUser(row.user, SessionFound(session, row.user, row.expires)))))
    case DropSession(session) => Effect(DeleteSession(db, session), Finish(Failed))
    case RevokeSession(session) => Effect(DeleteSession(db, session), Finish(Ok))
    case Userinfo(token) =>
      if token !in db.access || db.access[token].expires < t then Effect(db, Finish(Failed))
      else Effect(db, Continue(Check(GetUser(db.access[token].user, TokenAccepted(db.access[token])))))
    case Introspect(token, client) =>
      if token !in db.access || db.access[token].expires < t then Effect(db, Finish(Failed))
      else if client !in db.access[token].audience then Effect(db, Finish(Failed))
      else Effect(db, Continue(Check(GetUser(db.access[token].user, TokenAccepted(db.access[token])))))
    case GetUser(user, reply) => Effect(db, Finish(if user in db.users then reply else Failed))
  }

  /** Sign the user out everywhere: the three tables that hang off users(id). */
  function RevokeSessions(db: DB, user: UserId): DB {
    DeleteRefreshOfUser(DeleteAccessOfUser(DeleteSessionsOfUser(db, user), user), user)
  }

  function AdminStep(db: DB, c: AdminCall, t: Time): Effect {
    match c
    case CreateUser(user, account) =>
      (match InsertUser(db, user, account)
       case None => Effect(db, Finish(Failed))
       case Some(db') => Effect(db', Finish(Ok)))
    case SetPassword(user, length, hash) =>
      if length < 8 || user !in db.users then Effect(db, Finish(Failed))
      else Effect(RevokeSessions(UpdateUser(db, user, db.users[user].(passwordHash := hash)), user), Finish(Ok))
    case SetAdmin(user, admin) =>
      if user !in db.users then Effect(db, Finish(Failed)) else
      var db' := UpdateUser(db, user, db.users[user].(isAdmin := admin));
      Effect(if db.users[user].isAdmin && !admin then RevokeSessions(db', user) else db', Finish(Ok))
    case RemoveUser(user) =>
      if user !in db.users then Effect(db, Finish(Failed)) else Effect(DeleteUser(db, user), Finish(Ok))
    case Provision(app, client) =>
      if app == "" then Effect(db, Finish(Failed)) else
      (match InsertClient(db, client, app)
       case None => Effect(db, Finish(Failed))
       case Some(db') => Effect(db', Finish(Ok)))
    case DeleteClient(app) =>
      (match ClientOf(db.clients, app)
       case None => Effect(db, Finish(Failed))
       case Some(client) =>
         Effect(DeleteClientRow(DeleteRefreshOfClient(DeleteAccessOfClient(db, client), client), client), Finish(Ok)))
    case Purge(cutoff, table, rest) =>
      Effect(DeleteExpired(db, table, cutoff),
             if rest == [] then Finish(Ok) else Continue(Admin(Purge(cutoff, rest[0], rest[1..]))))
  }

  /** Runs the next statement of the call at time `t`. */
  function Step(db: DB, c: Call, t: Time): Effect {
    match c
    case Issue(i) => IssueStep(db, i, t)
    case Withdraw(w) => WithdrawStep(db, w, t)
    case Request(r) => RequestStep(db, r, t)
    case Check(q) => CheckStep(db, q, t)
    case Admin(a) => AdminStep(db, a, t)
  }

  lemma RankDecreases(db: DB, c: Call, t: Time)
    ensures Step(db, c, t).next.Continue? ==> 0 < Rank(Step(db, c, t).next.call) < Rank(c)
  {}

  /** The call run to its end with nothing in between; `clock` holds one reading per statement. */
  function Run(db: DB, c: Call, clock: seq<Time>): Completed
    requires |clock| >= Rank(c)
    decreases Rank(c)
  {
    RankDecreases(db, c, clock[0]);
    var e := Step(db, c, clock[0]);
    if e.next.Finish? then Completed(e.db, e.next.reply)
    else Run(e.db, e.next.call, clock[1..])
  }
}
