/**
  The stores of nass as classes over one shared database, method by method.

  `Valid` is what the tables satisfy whenever no statement is running: foreign keys
  hold, a request has at most one code, and a refresh token outlives what it ties. Every
  public method keeps it, and, run with nothing in between, leaves the tables and gives
  the answer that `Run` computes for its call. Random ids, which are assumed to be
  unused, and clock readings are parameters.
 */
module Stores {
  import opened Wrappers
  import opened Schema
  import opened Calls
  import Codes
  import Flows
  import Integrity
  import Interleaving
  import Purging
  import Revocation
  import SignOut
  import Ties

  /** The connection that all stores share. */
  class Database {
    var rows: DB
    /** No statement has run later than this. */
    ghost var now: Time

    ghost predicate Valid()
      reads this
    {
      Sound(rows, now)
    }

    /** The ids that a call draws are distinct and no table uses them; the clock does not go back. */
    ghost predicate Ready(c: Call, t: Time)
      reads this
    {
      DrawsDistinct(c) && now <= t && forall id | id in Reserved(c) :: id !in Interleaving.Keys(rows)
    }

    constructor ()
      ensures rows == EMPTY_DB && Valid()
    {
      rows := EMPTY_DB;
      now := 0;
      NothingIsSound();
    }
  }

  datatype Rule = OwnersAreStored | OneClientEach | OneCodeEach | TiesAreShorter | LifetimesAreBounded

  ghost predicate Obeys(rule: Rule, rows: DB, now: Time) {
    match rule
    case OwnersAreStored => Integrity.OwnersExist(rows)
    case OneClientEach => Integrity.OneClientPerApp(rows)
    case OneCodeEach => Codes.CodesOwned(rows)
    case TiesAreShorter => Purging.TokensOrdered(rows)
    case LifetimesAreBounded => Purging.Bounded(rows, now)
  }

  ghost predicate Sound(rows: DB, now: Time) {
    forall rule :: Obeys(rule, rows, now)
  }

  lemma SoundMeans(rows: DB, now: Time)
    ensures Sound(rows, now) <==> Integrity.Integral(rows) && Purging.Healthy(rows, now)
  {
    hide Integrity.OwnersExist, Integrity.OneClientPerApp, Codes.CodesOwned, Purging.TokensOrdered, Purging.Bounded;
    if Sound(rows, now) {
      assert Obeys(OwnersAreStored, rows, now) && Obeys(OneClientEach, rows, now) && Obeys(OneCodeEach, rows, now);
      assert Obeys(TiesAreShorter, rows, now) && Obeys(LifetimesAreBounded, rows, now);
    }
  }

  lemma NothingIsSound()
    ensures Sound(EMPTY_DB, 0)
  {}

  /** Sound tables stay sound when a call runs to its end. */
  lemma {:induction false} RunStaysSound(rows: DB, c: Call, clock: seq<Time>)
    requires |clock| >= Rank(c) && Purging.Rising(clock) && Sound(rows, clock[0]) && DrawsDistinct(c)
    requires forall id | id in Reserved(c) :: id !in Interleaving.Keys(rows)
    ensures Sound(Run(rows, c, clock).db, clock[|clock| - 1])
    decreases Rank(c)
  {
    hide Sound, Purging.Healthy, Integrity.Integral, Run;
    SoundMeans(rows, clock[0]);
    Purging.RunStaysHealthy(rows, c, clock);
    RunStaysIntegral(rows, c, clock);
    SoundMeans(Run(rows, c, clock).db, clock[|clock| - 1]);
  }

  lemma {:induction false} RunStaysIntegral(rows: DB, c: Call, clock: seq<Time>)
    requires |clock| >= Rank(c) && Integrity.Integral(rows)
    ensures Integrity.Integral(Run(rows, c, clock).db)
    decreases Rank(c)
  {
    hide Step, Integrity.Integral;
    RankDecreases(rows, c, clock[0]);
    Integrity.StepKeepsIntegrity(rows, c, clock[0]);
    var e := Step(rows, c, clock[0]);
    if e.next.Continue? { RunStaysIntegral(e.db, e.next.call, clock[1..]); }
  }

  lemma SoundLater(rows: DB, now: Time, later: Time)
    requires Sound(rows, now) && now <= later
    ensures Sound(rows, later)
  {
    hide Sound, Purging.Healthy, Integrity.Integral;
    SoundMeans(rows, now);
    Purging.HealthyLater(rows, now, later);
    SoundMeans(rows, later);
  }

  /** What a method needs to know to keep `Valid`. */
  lemma Stays(rows: DB, now: Time, c: Call, clock: seq<Time>)
    requires |clock| >= Rank(c) && Purging.Rising(clock) && now <= clock[0] && Sound(rows, now) && DrawsDistinct(c)
    requires forall id | id in Reserved(c) :: id !in Interleaving.Keys(rows)
    ensures Sound(Run(rows, c, clock).db, clock[|clock| - 1])
  {
    hide Sound, Run;
    SoundLater(rows, now, clock[0]);
    RunStaysSound(rows, c, clock);
  }

  // --- internal/auth/users.go ---

  class UserStore {
    const db: Database

    constructor (db: Database)
      ensures this.db == db
    {
      this.db := db;
    }

    method SetAdmin(id: UserId, isAdmin: bool, t: Time) returns (reply: Reply)
      requires db.Valid() && db.now <= t
      modifies db
      ensures db.Valid() && db.now == t
      ensures Completed(db.rows, reply) == Run(old(db.rows), Admin(AdminCall.SetAdmin(id, isAdmin)), [t])
      ensures reply == if id in old(db.rows).users then Ok else Failed
      ensures id in old(db.rows).users && old(db.rows).users[id].isAdmin && !isAdmin ==> SignOut.HoldsNothing(db.rows, id)
    {
      Stays(db.rows, db.now, Admin(AdminCall.SetAdmin(id, isAdmin)), [t]);
      NothingLeft(db.rows, AdminCall.SetAdmin(id, isAdmin), t);
      hide Sound, SignOut.HoldsNothing;
      db.now := t;
      if id !in db.rows.users { return Failed; }
      var wasAdmin := db.rows.users[id].isAdmin;
      db.rows := UpdateUser(db.rows, id, db.rows.users[id].(isAdmin := isAdmin));
      if wasAdmin && !isAdmin {
        SignOutEverywhere(id);
      }
      return Ok;
    }

    method SetPassword(id: UserId, length: nat, hash: nat, t: Time) returns (reply: Reply)
      requires db.Valid() && db.now <= t
      modifies db
      ensures db.Valid() && db.now == t
      ensures Completed(db.rows, reply) == Run(old(db.rows), Admin(AdminCall.SetPassword(id, length, hash)), [t])
      ensures reply == if length >= 8 && id in old(db.rows).users then Ok else Failed
      ensures reply == Ok ==> SignOut.HoldsNothing(db.rows, id)
    {
      Stays(db.rows, db.now, Admin(AdminCall.SetPassword(id, length, hash)), [t]);
      NothingLeft(db.rows, AdminCall.SetPassword(id, length, hash), t);
      hide Sound, SignOut.HoldsNothing;
      db.now := t;
      if length < 8 { return Failed; }
      if id !in db.rows.users { return Failed; }
      db.rows := UpdateUser(db.rows, id, db.rows.users[id].(passwordHash := hash));
      SignOutEverywhere(id);
      return Ok;
    }

    /** Deletes the rows of the user table by table. */
    method SignOutEverywhere(id: UserId)
      modifies db`rows
      ensures db.rows == RevokeSessions(old(db.rows), id)
    {
      var tables := [Sessions, Access, Refresh];
      for i := 0 to |tables|
        invariant i == 0 ==> db.rows == old(db.rows)
        invariant i == 1 ==> db.rows == DeleteSessionsOfUser(old(db.rows), id)
        invariant i == 2 ==> db.rows == DeleteAccessOfUser(DeleteSessionsOfUser(old(db.rows), id), id)
        invariant i == 3 ==> db.rows == RevokeSessions(old(db.rows), id)
      {
        if tables[i] == Sessions {
          db.rows := DeleteSessionsOfUser(db.rows, id);
        } else if tables[i] == Access {
          db.rows := DeleteAccessOfUser(db.rows, id);
        } else {
          db.rows := DeleteRefreshOfUser(db.rows, id);
        }
      }
    }

    method Delete(id: UserId, t: Time) returns (reply: Reply)
      requires db.Valid() && db.now <= t
      modifies db
      ensures db.Valid() && db.now == t
      ensures Completed(db.rows, reply) == Run(old(db.rows), Admin(RemoveUser(id)), [t])
      ensures reply == if id in old(db.rows).users then Ok else Failed
      ensures reply == Ok ==> SignOut.HoldsNothing(db.rows, id)
    {
      Stays(db.rows, db.now, Admin(RemoveUser(id)), [t]);
      NothingLeft(db.rows, RemoveUser(id), t);
      hide Sound, SignOut.HoldsNothing;
      db.now := t;
      if id !in db.rows.users { return Failed; }
      db.rows := DeleteUser(db.rows, id);
      return Ok;
    }
  }

  lemma NothingLeft(rows: DB, c: AdminCall, t: Time)
    ensures SignOut.SignsOut(rows, c) ==> SignOut.HoldsNothing(Run(rows, Admin(c), [t]).db, c.user)
  {
    if SignOut.SignsOut(rows, c) {
      SignOut.SignOutIsExact(rows, c, t);
      assert Run(rows, Admin(c), [t]).db == AdminStep(rows, c, t).db;
      hide AdminStep, Run;
    }
  }

  // --- internal/portal/session.go ---

  class SessionStore {
    const db: Database
    const users: UserStore

    ghost predicate Valid()
      reads db
    {
      users.db == db && db.Valid()
    }

    constructor (db: Database, users: UserStore)
      requires users.db == db
      ensures this.db == db && this.users == users
    {
      this.db := db;
      this.users := users;
    }

    method Issue(session: Id, user: UserId, t: Time, t': Time) returns (reply: Reply)
      requires Valid() && db.Ready(Check(IssueSession(session, user)), t) && t <= t'
      modifies db
      ensures Valid() && db.now == t'
      ensures Completed(db.rows, reply) == Run(old(db.rows), Check(IssueSession(session, user)), [t, t'])
      ensures reply == if user in old(db.rows).users then SessionFound(session, user, t + SESSION_TTL) else Failed
    {
      Stays(db.rows, db.now, Check(IssueSession(session, user)), [t, t']);
      assert session in Reserved(Check(IssueSession(session, user)));
      assert [t, t'][1..] == [t'];
      hide Sound;
      db.now := t';
      var row := SessionRow(user, t + SESSION_TTL);
      var inserted := InsertSession(db.rows, session, row);
      if inserted.None? { return Failed; }
      db.rows := inserted.value;
      if user !in users.db.rows.users { return Failed; }
      return SessionFound(session, user, row.expires);
    }

    method Lookup(session: Id, t: Time, t': Time) returns (reply: Reply)
      requires Valid() && db.now <= t <= t'
      modifies db
      ensures Valid() && db.now == t'
      ensures Completed(db.rows, reply) == Run(old(db.rows), Check(LookupSession(session)), [t, t'])
      ensures reply.SessionFound? <==> session in old(db.rows).sessions && t <= old(db.rows).sessions[session].expires
      ensures reply.SessionFound? ==>
        session in db.rows.sessions && reply.session == session && reply.user == db.rows.sessions[session].user
    {
      Stays(db.rows, db.now, Check(LookupSession(session)), [t, t']);
      assert [t, t'][1..] == [t'];
      Owned(db.rows, db.now);
      hide Sound;
      db.now := t';
      if session !in db.rows.sessions { return Failed; }
      var row := db.rows.sessions[session];
      if t > row.expires {
        db.rows := DeleteSession(db.rows, session);
        return Failed;
      }
      if row.user !in users.db.rows.users { return Failed; }
      return SessionFound(session, row.user, row.expires);
    }

    method Revoke(session: Id, t: Time) returns (reply: Reply)
      requires Valid() && db.now <= t
      modifies db
      ensures Valid() && db.now == t
      ensures Completed(db.rows, reply) == Run(old(db.rows), Check(RevokeSession(session)), [t])
      ensures session !in db.rows.sessions
    {
      Stays(db.rows, db.now, Check(RevokeSession(session)), [t]);
      hide Sound;
      db.now := t;
      db.rows := DeleteSession(db.rows, session);
      return Ok;
    }

    method PurgeExpired(cutoff: Time, t: Time) returns (reply: Reply)
      requires Valid() && db.now <= t
      modifies db
      ensures Valid() && db.now == t
      ensures Completed(db.rows, reply) == Run(old(db.rows), Admin(Purge(cutoff, Sessions, [])), [t])
      ensures Flows.Swept(db.rows, Sessions, cutoff)
    {
      Stays(db.rows, db.now, Admin(Purge(cutoff, Sessions, [])), [t]);
      hide Sound;
      db.now := t;
      db.rows := DeleteExpired(db.rows, Sessions, cutoff);
      return Ok;
    }
  }

  lemma Owned(rows: DB, now: Time)
    requires Sound(rows, now)
    ensures Integrity.OwnersExist(rows) && Codes.CodesOwned(rows) && Purging.TokensOrdered(rows)
  {
    hide Sound;
    SoundMeans(rows, now);
  }

  /** One turn of the loop of a purge. */
  lemma PurgesNext(rows: DB, tables: seq<Table>, i: nat, cutoff: Time, clock: seq<Time>)
    requires i < |tables| <= |clock|
    ensures Run(rows, Admin(Purge(cutoff, tables[i], tables[i + 1..])), clock[i..])
      == var after := DeleteExpired(rows, tables[i], cutoff);
         if i + 1 < |tables| then Run(after, Admin(Purge(cutoff, tables[i + 1], tables[i + 2..])), clock[i + 1..])
         else Completed(after, Ok)
  {
    hide DeleteExpired;
    assert clock[i..][1..] == clock[i + 1..];
    assert i + 1 < |tables| ==> tables[i + 1..][0] == tables[i + 1] && tables[i + 1..][1..] == tables[i + 2..];
  }

  lemma AllSwept(rows: DB, tables: seq<Table>, cutoff: Time)
    requires tables == [Requests, Codes, Access, Refresh]
    requires forall i | 0 <= i < |tables| :: Flows.Swept(rows, tables[i], cutoff)
    ensures forall table | table != Sessions :: Flows.Swept(rows, table, cutoff)
  {
    hide Flows.Swept;
    assert Flows.Swept(rows, tables[0], cutoff) && Flows.Swept(rows, tables[1], cutoff);
    assert Flows.Swept(rows, tables[2], cutoff) && Flows.Swept(rows, tables[3], cutoff);
  }

  /** A first pair, or the rotation of `current`. */
  function PairCall(req: TokenRequest, current: Option<Id>, access: Id, refresh: Id): Call {
    if current.None? then Issue(IssuePair(req, access, refresh)) else Issue(Rotate(req, current.value, access, refresh))
  }

  /** A pair is issued to a stored user, and in rotation only for a refresh token that has not expired. */
  lemma PairOutcome(
      rows: DB, now: Time, req: TokenRequest, current: Option<Id>, access: Id, refresh: Id, t: Time, t': Time)
    requires Sound(rows, now) && access !in rows.access && refresh !in rows.refresh
    ensures var r := Run(rows, PairCall(req, current, access, refresh), [t, t']);
      && (r.reply.PairIssued? <==>
            && req.subject.Some? && req.subject.value in rows.users
            && (current.Some? ==> current.value in rows.refresh && t' <= rows.refresh[current.value].expires))
      && (r.reply.PairIssued? ==> r.reply == PairIssued(access, refresh, t + ACCESS_TOKEN_TTL))
      && (!r.reply.PairIssued? ==> r.reply == Failed && r.db == rows.(access := r.db.access))
  {
    Owned(rows, now);
    hide Sound;
    assert [t, t'][1..] == [t'];
  }

  // --- internal/auth/oidc ---

  class Storage {
    const db: Database
    const users: UserStore

    ghost predicate Valid()
      reads db
    {
      users.db == db && db.Valid()
    }

    constructor (db: Database, users: UserStore)
      requires users.db == db
      ensures this.db == db && this.users == users
    {
      this.db := db;
      this.users := users;
    }

    /** Prompt "none" asks for an answer without a login page, which nass does not give. */
    method CreateAuthRequest(id: Id, client: ClientId, subject: Option<UserId>, details: Details, prompt: seq<string>, t: Time)
      returns (reply: Reply)
      requires Valid() && db.Ready(Request(NewRequest(id, client, subject, details)), t)
      modifies db
      ensures Valid() && db.now == t
      ensures prompt == ["none"] ==> reply == Failed && db.rows == old(db.rows)
      ensures prompt != ["none"] ==>
        Completed(db.rows, reply) == Run(old(db.rows), Request(NewRequest(id, client, subject, details)), [t])
      ensures prompt != ["none"] ==> reply.RequestFound? && reply.row.details == details && !reply.row.completed
    {
      Stays(db.rows, db.now, Request(NewRequest(id, client, subject, details)), [t]);
      SoundLater(db.rows, db.now, t);
      assert id in Reserved(Request(NewRequest(id, client, subject, details)));
      hide Sound;
      db.now := t;
      if |prompt| == 1 && prompt[0] == "none" { return Failed; }
      var row := RequestRow(client, subject, details, None, false, t + AUTH_REQUEST_TTL);
      var inserted := InsertRequest(db.rows, id, row);
      if inserted.None? { return Failed; }
      db.rows := inserted.value;
      return RequestFound(id, row);
    }

    method AuthRequestByID(id: Id, t: Time) returns (reply: Reply)
      ensures Completed(db.rows, reply) == Run(db.rows, Request(LoadRequest(id)), [t])
      ensures reply.RequestFound? <==> id in db.rows.requests && AfterCurrentTimestamp(db.rows.requests[id].expires, t)
      ensures reply.RequestFound? ==> reply.id == id && reply.row == db.rows.requests[id]
    {
      if id !in db.rows.requests || !AfterCurrentTimestamp(db.rows.requests[id].expires, t) { return Failed; }
      return RequestFound(id, db.rows.requests[id]);
    }

    method MarkAuthRequestComplete(id: Id, user: UserId, t: Time) returns (reply: Reply)
      requires Valid() && db.now <= t
      modifies db
      ensures Valid() && db.now == t
      ensures Completed(db.rows, reply) == Run(old(db.rows), Request(Complete(id, user)), [t])
      ensures reply == Ok <==> id in old(db.rows).requests
    {
      Stays(db.rows, db.now, Request(Complete(id, user)), [t]);
      hide Sound;
      db.now := t;
      if id !in db.rows.requests { return Failed; }
      db.rows := CompleteRequest(db.rows, id, user, t);
      return Ok;
    }

    method DeleteAuthRequest(id: Id, t: Time) returns (reply: Reply)
      requires Valid() && db.now <= t
      modifies db
      ensures Valid() && db.now == t
      ensures Completed(db.rows, reply) == Run(old(db.rows), Request(DeleteRequestById(id)), [t])
      ensures id !in db.rows.requests && !HasCode(db.rows, id)
    {
      Stays(db.rows, db.now, Request(DeleteRequestById(id)), [t]);
      hide Sound;
      db.now := t;
      db.rows := DeleteRequest(db.rows, id);
      return Ok;
    }

    /** The request of a stored code exists, so only the two lifetimes decide. */
    method AuthRequestByCode(code: Id, t: Time, t': Time) returns (reply: Reply)
      requires Valid()
      ensures Completed(db.rows, reply) == Run(db.rows, Request(ByCode(code)), [t, t'])
      ensures code in db.rows.codes ==> db.rows.codes[code].request in db.rows.requests
      ensures reply.RequestFound? <==>
        && code in db.rows.codes && AfterCurrentTimestamp(db.rows.codes[code].expires, t)
        && AfterCurrentTimestamp(db.rows.requests[db.rows.codes[code].request].expires, t')
    {
      Owned(db.rows, db.now);
      assert [t, t'][1..] == [t'];
      if code !in db.rows.codes || !AfterCurrentTimestamp(db.rows.codes[code].expires, t) { return Failed; }
      reply := AuthRequestByID(db.rows.codes[code].request, t');
    }

    method SaveAuthCode(id: Id, code: Id, t: Time) returns (reply: Reply)
      requires Valid() && db.Ready(Request(SaveCode(id, code)), t)
      modifies db
      ensures Valid() && db.now == t
      ensures Completed(db.rows, reply) == Run(old(db.rows), Request(SaveCode(id, code)), [t])
      ensures reply == Ok <==> Purging.TakesCode(old(db.rows), id)
    {
      Stays(db.rows, db.now, Request(SaveCode(id, code)), [t]);
      assert code in Reserved(Request(SaveCode(id, code)));
      hide Sound, HasCode;
      db.now := t;
      var inserted := InsertCode(db.rows, code, CodeRow(id, t + AUTH_CODE_TTL));
      if inserted.None? { return Failed; }
      db.rows := inserted.value;
      return Ok;
    }

    /** The expiry of the row it stored, if it stored one. */
    method InsertAccessToken(
        client: ClientId, refresh: Option<Id>, subject: Option<UserId>,
        audience: seq<ClientId>, scopes: seq<string>, id: Id, t: Time)
      returns (expires: Option<Time>)
      modifies db`rows
      ensures expires.Some? <==> subject.Some? && subject.value in old(db.rows).users && id !in old(db.rows).access
      ensures expires.None? ==> db.rows == old(db.rows)
      ensures expires.Some? ==>
        && expires.value == t + ACCESS_TOKEN_TTL
        && db.rows == old(db.rows).(access :=
             old(db.rows).access[id := AccessRow(client, subject.value, refresh, audience, scopes, expires.value)])
    {
      if subject.None? { return None; }
      var row := AccessRow(client, subject.value, refresh, audience, scopes, t + ACCESS_TOKEN_TTL);
      var inserted := InsertAccess(db.rows, id, row);
      if inserted.None? { return None; }
      db.rows := inserted.value;
      return Some(row.expires);
    }

    method CreateAccessToken(req: TokenRequest, access: Id, t: Time) returns (reply: Reply)
      requires Valid() && db.Ready(Call.Issue(IssueAccess(req, access)), t)
      modifies db
      ensures Valid() && db.now == t
      ensures Completed(db.rows, reply) == Run(old(db.rows), Call.Issue(IssueAccess(req, access)), [t])
      ensures reply == if req.subject.Some? && req.subject.value in old(db.rows).users
                       then AccessIssued(access, t + ACCESS_TOKEN_TTL) else Failed
      ensures reply.AccessIssued? ==> db.rows == old(db.rows).(access := old(db.rows).access[access :=
        AccessRow(req.client, req.subject.value, None, req.audience, req.scopes, t + ACCESS_TOKEN_TTL)])
    {
      Stays(db.rows, db.now, Call.Issue(IssueAccess(req, access)), [t]);
      assert access in Reserved(Call.Issue(IssueAccess(req, access)));
      hide Sound;
      db.now := t;
      var expires := InsertAccessToken(req.client, None, req.subject, req.audience, req.scopes, access, t);
      if expires.None? { return Failed; }
      return AccessIssued(access, expires.value);
    }

    method InsertRefreshToken(id: Id, req: TokenRequest, t: Time) returns (ok: bool)
      modifies db`rows
      ensures ok <==> req.subject.Some? && req.subject.value in old(db.rows).users && id !in old(db.rows).refresh
      ensures !ok ==> db.rows == old(db.rows)
      ensures ok ==> db.rows == old(db.rows).(refresh :=
        old(db.rows).refresh[id := RefreshRowFor(req, req.subject.value, t)])
    {
      if req.subject.None? { return false; }
      var authTime := if req.authTime.None? then t else req.authTime.value;
      var row := RefreshRow(req.subject.value, req.client, req.scopes, req.audience, authTime, t + REFRESH_TOKEN_TTL);
      var inserted := InsertRefresh(db.rows, id, row);
      if inserted.None? { return false; }
      db.rows := inserted.value;
      return true;
    }

    /** One transaction: either everything is done or the tables stay as they were. */
    method RotateRefreshToken(currentId: Id, newId: Id, access: Id, scopes: seq<string>, t: Time) returns (ok: bool)
      modifies db`rows
      ensures forall expires ::
        Step(old(db.rows), Call.Issue(RotateTx(currentId, scopes, access, newId, expires)), t)
          == Effect(db.rows, Finish(if ok then PairIssued(access, newId, expires) else Failed))
      ensures !ok ==> db.rows == old(db.rows)
    {
      var tx := db.rows;
      if currentId !in tx.refresh { return false; }
      var current := tx.refresh[currentId];
      if current.expires < t { return false; }
      tx := DeleteRefresh(tx, currentId);
      var row := RefreshRow(current.user, current.client, scopes, current.audience, current.authTime, t + REFRESH_TOKEN_TTL);
      var inserted := InsertRefresh(tx, newId, row);
      if inserted.None? { return false; }
      tx := inserted.value;
      tx := DeleteAccessTiedTo(tx, currentId, Some(access));
      db.rows := tx;
      return true;
    }

    /** `current` is the refresh token to rotate, if there is one. */
    method CreateAccessAndRefreshTokens(
        req: TokenRequest, current: Option<Id>, access: Id, refresh: Id, t: Time, t': Time)
      returns (reply: Reply)
      requires Valid() && db.Ready(PairCall(req, current, access, refresh), t) && t <= t'
      modifies db
      ensures Valid() && db.now == t'
      ensures Completed(db.rows, reply) == Run(old(db.rows), PairCall(req, current, access, refresh), [t, t'])
      ensures reply.PairIssued? <==>
        && req.subject.Some? && req.subject.value in old(db.rows).users
        && (current.Some? ==> current.value in old(db.rows).refresh && t' <= old(db.rows).refresh[current.value].expires)
      ensures reply.PairIssued? ==> reply == PairIssued(access, refresh, t + ACCESS_TOKEN_TTL)
      ensures !reply.PairIssued? ==> reply == Failed && db.rows == old(db.rows).(access := db.rows.access)
    {
      var c := PairCall(req, current, access, refresh);
      Stays(db.rows, db.now, c, [t, t']);
      assert access in Reserved(c) && refresh in Reserved(c);
      assert access !in db.rows.access && refresh !in db.rows.refresh;
      hide Sound, Reserved, Interleaving.Keys, DrawsDistinct;
      PairOutcome(db.rows, db.now, req, current, access, refresh, t, t');
      assert [t, t'][1..] == [t'];
      db.now := t';
      var expires := InsertAccessToken(req.client, Some(refresh), req.subject, req.audience, req.scopes, access, t);
      if expires.None? { return Failed; }
      var done: bool;
      if current.None? {
        done := InsertRefreshToken(refresh, req, t');
      } else {
        done := RotateRefreshToken(current.value, refresh, access, req.scopes, t');
      }
      if !done { return Failed; }
      return PairIssued(access, refresh, expires.value);
    }

    method TokenRequestByRefreshToken(token: Id, t: Time) returns (reply: Reply)
      ensures Completed(db.rows, reply) == Run(db.rows, Call.Issue(LoadRefresh(token)), [t])
      ensures reply.RefreshFound? <==> token in db.rows.refresh && t <= db.rows.refresh[token].expires
    {
      if token !in db.rows.refresh { return Failed; }
      var row := db.rows.refresh[token];
      if row.expires < t { return Failed; }
      return RefreshFound(RefreshRequest(token, row.client, row.user, row.scopes, row.audience, row.authTime));
    }

    method TerminateSession(subject: Option<UserId>, client: ClientId, t: Time, t': Time) returns (reply: Reply)
      requires Valid() && db.now <= t <= t'
      modifies db
      ensures Valid() && db.now == t'
      ensures Completed(db.rows, reply) == Run(old(db.rows), Withdraw(Terminate(subject, client)), [t, t'])
      ensures reply == Ok <==> subject.Some?
      ensures subject.Some? ==> !Revocation.Remains(db.rows, subject.value, client)
    {
      Stays(db.rows, db.now, Withdraw(Terminate(subject, client)), [t, t']);
      assert [t, t'][1..] == [t'];
      hide Sound;
      db.now := t';
      if subject.None? { return Failed; }
      db.rows := DeleteAccessOf(db.rows, subject.value, client);
      db.rows := DeleteRefreshOf(db.rows, subject.value, client);
      return Ok;
    }

    method RevokeToken(token: Id, client: ClientId, clock: seq<Time>) returns (reply: Reply)
      requires Valid() && |clock| >= 4 && Purging.Rising(clock) && db.now <= clock[0]
      modifies db
      ensures Valid() && db.now == clock[|clock| - 1]
      ensures Completed(db.rows, reply) == Run(old(db.rows), Withdraw(WithdrawCall.Revoke(token, client)), clock)
      ensures reply == if Purging.Foreign(old(db.rows), token, client) then Failed else Ok
      ensures reply == Ok ==> token !in db.rows.access && token !in db.rows.refresh
    {
      Ties.RevokeOutcome(db.rows, token, client, clock);
      Stays(db.rows, db.now, Withdraw(WithdrawCall.Revoke(token, client)), clock);
      Owned(db.rows, db.now);
      hide Sound, Run;
      db.now := clock[|clock| - 1];
      if token in db.rows.access {
        if db.rows.access[token].client != client { return Failed; }
        db.rows := DeleteAccess(db.rows, token);
        return Ok;
      }
      if token !in db.rows.refresh { return Ok; }
      if db.rows.refresh[token].client != client { return Failed; }
      db.rows := DeleteRefresh(db.rows, token);
      db.rows := DeleteAccessTiedTo(db.rows, token, None);
      return Ok;
    }

    method SetUserinfoFromToken(token: Id, t: Time, t': Time) returns (reply: Reply)
      requires Valid()
      ensures Completed(db.rows, reply) == Run(db.rows, Check(Userinfo(token)), [t, t'])
      ensures reply.TokenAccepted? <==> token in db.rows.access && t <= db.rows.access[token].expires
      ensures reply.TokenAccepted? ==> reply.token == db.rows.access[token]
    {
      Owned(db.rows, db.now);
      assert [t, t'][1..] == [t'];
      if token !in db.rows.access { return Failed; }
      var row := db.rows.access[token];
      if row.expires < t { return Failed; }
      if row.user !in users.db.rows.users { return Failed; }
      return TokenAccepted(row);
    }

    method SetIntrospectionFromToken(token: Id, client: ClientId, t: Time, t': Time) returns (reply: Reply)
      requires Valid()
      ensures Completed(db.rows, reply) == Run(db.rows, Check(Introspect(token, client)), [t, t'])
      ensures reply.TokenAccepted? <==>
        token in db.rows.access && t <= db.rows.access[token].expires && client in db.rows.access[token].audience
      ensures reply.TokenAccepted? ==> reply.token == db.rows.access[token]
    {
      Owned(db.rows, db.now);
      assert [t, t'][1..] == [t'];
      if token !in db.rows.access { return Failed; }
      var row := db.rows.access[token];
      if row.expires < t { return Failed; }
      for i := 0 to |row.audience|
        invariant client !in row.audience[..i]
      {
        if row.audience[i] == client {
          if row.user !in users.db.rows.users { return Failed; }
          return TokenAccepted(row);
        }
      }
      return Failed;
    }

    method PurgeExpired(cutoff: Time, clock: seq<Time>) returns (reply: Reply)
      requires Valid() && |clock| >= 4 && Purging.Rising(clock) && db.now <= clock[0]
      modifies db
      ensures Valid() && db.now == clock[|clock| - 1]
      ensures Completed(db.rows, reply)
        == Run(old(db.rows), Admin(Purge(cutoff, Requests, [Codes, Access, Refresh])), clock)
      ensures forall table | table != Sessions :: Flows.Swept(db.rows, table, cutoff)
    {
      var tables := [Requests, Codes, Access, Refresh];
      ghost var whole := Run(db.rows, Admin(Purge(cutoff, Requests, [Codes, Access, Refresh])), clock);
      Stays(db.rows, db.now, Admin(Purge(cutoff, Requests, [Codes, Access, Refresh])), clock);
      hide Sound, DeleteExpired, Flows.Swept;
      db.now := clock[|clock| - 1];
      assert tables[1..] == [Codes, Access, Refresh] && clock[0..] == clock;
      for i := 0 to |tables|
        invariant i < |tables| ==> whole == Run(db.rows, Admin(Purge(cutoff, tables[i], tables[i + 1..])), clock[i..])
        invariant i == |tables| ==> whole == Completed(db.rows, Ok)
        invariant forall j | 0 <= j < i :: Flows.Swept(db.rows, tables[j], cutoff)
        invariant db.now == clock[|clock| - 1]
      {
        PurgesNext(db.rows, tables, i, cutoff, clock);
        Flows.SweepsIts(db.rows, tables[i], cutoff);
        hide Run;
        db.rows := DeleteExpired(db.rows, tables[i], cutoff);
      }
      AllSwept(db.rows, tables, cutoff);
      return Ok;
    }
  }

  /** The row of the app itself is not among these tables. */
  method Provision(db: Database, app: string, client: ClientId, t: Time) returns (reply: Reply)
    requires db.Valid() && db.now <= t
    modifies db
    ensures db.Valid() && db.now == t
    ensures Completed(db.rows, reply) == Run(old(db.rows), Admin(AdminCall.Provision(app, client)), [t])
  {
    Stays(db.rows, db.now, Admin(AdminCall.Provision(app, client)), [t]);
    hide Sound;
    db.now := t;
    if app == "" { return Failed; }
    var inserted := InsertClient(db.rows, client, app);
    if inserted.None? { return Failed; }
    db.rows := inserted.value;
    return Ok;
  }

  /** Failed stands for "no client found"; it is not an error for every caller. */
  method DeleteClient(db: Database, app: string, t: Time) returns (reply: Reply)
    requires db.Valid() && db.now <= t
    modifies db
    ensures db.Valid() && db.now == t
    ensures Completed(db.rows, reply) == Run(old(db.rows), Admin(AdminCall.DeleteClient(app)), [t])
    ensures reply == Ok <==> HasClient(old(db.rows).clients, app)
  {
    Stays(db.rows, db.now, Admin(AdminCall.DeleteClient(app)), [t]);
    hide Sound, HasClient;
    db.now := t;
    var found := ClientOf(db.rows.clients, app);
    if found.None? { return Failed; }
    var tx := DeleteAccessOfClient(db.rows, found.value);
    tx := DeleteRefreshOfClient(tx, found.value);
    tx := DeleteClientRow(tx, found.value);
    db.rows := tx;
    return Ok;
  }
}
