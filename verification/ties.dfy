/**
  What holds when calls run one after another.

  In a serial run every access token that a client received together with a refresh
  token stays tied to it: the refresh token is live, agrees on user, client and
  audience, and outlives the access token. Revoking a refresh token therefore ends
  every access token its family ever handed out.
 */
module Ties {
  import opened Wrappers
  import opened Schema
  import opened Calls
  import opened Interleaving
  import opened Identities
  import opened Grants
  import SignOut

  /** A call starts only when no other is in progress. */
  ghost predicate Serial(w: World, es: seq<Event>)
    requires Legal(w, es)
    decreases |es|
  {
    es == [] || ((es[0].Begin? ==> w.pending == map[]) && Serial(After(w, es[0]), es[1..]))
  }

  predicate TiedTo(a: AccessRow, refresh: map<Id, RefreshRow>) {
    a.refresh.None? ||
    (&& a.refresh.value in refresh
     && var r := refresh[a.refresh.value];
        a.user == r.user && a.client == r.client && a.audience == r.audience && a.expires <= r.expires)
  }

  /** `spare` is a refresh token that a revocation in progress has already deleted. */
  ghost predicate Tied(db: DB, returned: set<Id>, spare: Option<Id>) {
    forall id | id in db.access && id in returned && (spare.None? || db.access[id].refresh != spare) ::
      TiedTo(db.access[id], db.refresh)
  }

  /** A refresh token looked up for the library is on record with the same contents. */
  ghost predicate Agrees(req: RefreshRequest, ever: map<Id, RefreshRow>) {
    && req.id in ever
    && req.user == ever[req.id].user && req.client == ever[req.id].client && req.audience == ever[req.id].audience
  }

  /** The access row a pair or rotation in progress has stored, unless it is gone again; nobody has received it. */
  ghost predicate Stored(db: DB, h: History, access: Id, row: AccessRow, now: Time) {
    && access !in h.returned
    && access in h.access
    && row.expires <= now + ACCESS_TOKEN_TTL
    && (access in db.access ==> db.access[access] == row)
  }

  /** The tables PurgeExpired still visits after `table`. */
  function LaterTables(table: Table): seq<Table> {
    match table
    case Requests => [Codes, Access, Refresh]
    case Codes => [Access, Refresh]
    case Access => [Refresh]
    case Refresh => []
    case Sessions => []
  }

  /** What the tables satisfy when `c` is about to run its next statement and nothing else is in progress. */
  ghost predicate Ready(db: DB, h: History, c: Call, now: Time) {
    match c
    case Issue(PairRefresh(req, access, refresh, expires)) =>
      && Tied(db, h.returned, None)
      && req.subject.Some?
      && Stored(db, h, access, AccessRow(req.client, req.subject.value, Some(refresh), req.audience, req.scopes, expires), now)
    case Issue(Rotate(req, current, _, _)) =>
      && Tied(db, h.returned, None)
      && current in h.refresh && var r := h.refresh[current];
         req.subject == Some(r.user) && req.client == r.client && req.audience == r.audience
    case Issue(RotateTx(currentId, scopes, access, refresh, expires)) =>
      && Tied(db, h.returned, None)
      && currentId in h.refresh
      && var r := h.refresh[currentId];
         Stored(db, h, access, AccessRow(r.client, r.user, Some(refresh), r.audience, scopes, expires), now)
    case Withdraw(RevokeTied(token)) => Tied(db, h.returned, Some(token))
    case Withdraw(TerminateRefresh(user, client)) =>
      && Tied(db, h.returned, None)
      && forall id | id in db.access :: !(db.access[id].user == user && db.access[id].client == client)
    case Admin(Purge(cutoff, table, rest)) =>
      && Tied(db, h.returned, None)
      && rest == LaterTables(table)
      && (table == Refresh ==> forall id | id in db.access :: db.access[id].expires >= cutoff)
    case _ => Tied(db, h.returned, None)
  }

  ghost predicate Resolved(db: DB, h: History, next: Outcome, now: Time) {
    if next.Continue? then Ready(db, h, next.call, now) else Tied(db, h.returned, None)
  }

  ghost predicate Bookkeeping(db: DB, h: History) {
    && OnRecord(db, h)
    && h.returned <= h.access.Keys
    && (forall req | req in h.loaded :: Agrees(req, h.refresh))
  }

  // --- one statement keeps the ties ---

  lemma IssuePairResolved(db: DB, h: History, c: IssueCall, t: Time)
    requires c.IssuePair? || c.Rotate?
    requires Bookkeeping(db, h) && Unrecorded(Issue(c), h) && Ready(db, h, Issue(c), t)
    ensures var e := IssueStep(db, c, t); Resolved(e.db, Record(h, Issue(c), e, t), e.next, t)
  {
    assert c.access in Reserved(Issue(c));
  }

  lemma PairRefreshResolved(db: DB, h: History, c: IssueCall, t: Time)
    requires c.PairRefresh?
    requires Bookkeeping(db, h) && Unrecorded(Issue(c), h) && Ready(db, h, Issue(c), t)
    ensures var e := IssueStep(db, c, t); Resolved(e.db, Record(h, Issue(c), e, t), e.next, t)
  {
    assert c.refresh in Reserved(Issue(c));
  }

  lemma RotateTxResolved(db: DB, h: History, c: IssueCall, t: Time)
    requires c.RotateTx?
    requires Bookkeeping(db, h) && Unrecorded(Issue(c), h) && Ready(db, h, Issue(c), t)
    ensures var e := IssueStep(db, c, t); Resolved(e.db, Record(h, Issue(c), e, t), e.next, t)
  {}

  lemma OtherIssueResolved(db: DB, h: History, c: IssueCall, t: Time)
    requires c.IssueAccess? || c.LoadRefresh?
    requires Bookkeeping(db, h) && Unrecorded(Issue(c), h) && Ready(db, h, Issue(c), t)
    ensures var e := IssueStep(db, c, t); Resolved(e.db, Record(h, Issue(c), e, t), e.next, t)
  {}

  lemma RevokeResolved(db: DB, h: History, c: WithdrawCall, t: Time)
    requires !c.Terminate? && !c.TerminateRefresh?
    requires Ready(db, h, Withdraw(c), t)
    ensures var e := WithdrawStep(db, c, t); Resolved(e.db, Record(h, Withdraw(c), e, t), e.next, t)
  {}

  lemma TerminateResolved(db: DB, h: History, user: UserId, client: ClientId)
    requires Tied(db, h.returned, None)
    ensures Ready(DeleteAccessOf(db, user, client), h, Withdraw(TerminateRefresh(user, client)), 0)
  {
    var after := DeleteAccessOf(db, user, client);
    assert Extends(db.access, after.access, {}) && after.refresh == db.refresh;
  }

  lemma TerminateRefreshResolved(db: DB, h: History, user: UserId, client: ClientId, t: Time)
    requires Ready(db, h, Withdraw(TerminateRefresh(user, client)), t)
    ensures Tied(DeleteRefreshOf(db, user, client), h.returned, None)
  {}

  lemma WithdrawResolved(db: DB, h: History, c: WithdrawCall, t: Time)
    requires Ready(db, h, Withdraw(c), t)
    ensures var e := WithdrawStep(db, c, t); Resolved(e.db, Record(h, Withdraw(c), e, t), e.next, t)
  {
    if c.Terminate? {
      if c.subject.Some? { TerminateResolved(db, h, c.subject.value, c.client); }
    } else if c.TerminateRefresh? {
      TerminateRefreshResolved(db, h, c.user, c.client, t);
    } else {
      RevokeResolved(db, h, c, t);
    }
  }

  /** Expired access tokens go first, so no purged refresh token leaves one behind. */
  lemma PurgeKeepsTies(db: DB, returned: set<Id>, table: Table, cutoff: Time)
    requires Tied(db, returned, None)
    requires table == Refresh ==> forall id | id in db.access :: db.access[id].expires >= cutoff
    ensures var after := DeleteExpired(db, table, cutoff);
      && Tied(after, returned, None)
      && (table == Access ==> forall id | id in after.access :: after.access[id].expires >= cutoff)
  {}

  lemma PurgeResolved(db: DB, h: History, c: AdminCall, t: Time)
    requires c.Purge?
    requires Ready(db, h, Admin(c), t)
    ensures var e := AdminStep(db, c, t); Resolved(e.db, Record(h, Admin(c), e, t), e.next, t)
  {
    hide DeleteExpired, Tied;
    PurgeKeepsTies(db, h.returned, c.table, c.cutoff);
  }

  /** Rows of one user go from both tables; a tied pair has one user. */
  lemma LossKeepsTies(db: DB, after: DB, returned: set<Id>, user: UserId)
    requires Tied(db, returned, None)
    requires SignOut.LosesExactly(db, after, user)
    requires Extends(db.access, after.access, {}) && Extends(db.refresh, after.refresh, {})
    ensures Tied(after, returned, None)
  {}

  lemma SignOutResolved(db: DB, h: History, c: AdminCall, t: Time)
    requires SignOut.TouchesUser(c)
    requires Ready(db, h, Admin(c), t)
    ensures var e := AdminStep(db, c, t); Resolved(e.db, Record(h, Admin(c), e, t), e.next, t)
  {
    hide AdminStep;
    SignOut.SignOutIsExact(db, c, t);
    AdminKeeps(db, c, t);
    if SignOut.SignsOut(db, c) {
      LossKeepsTies(db, AdminStep(db, c, t).db, h.returned, c.user);
    }
    AdminReplies(db, c, t);
  }

  /** No call on users, clients or expired rows hands out a token. */
  lemma AdminReplies(db: DB, c: AdminCall, t: Time)
    ensures var e := AdminStep(db, c, t);
      && (e.next.Continue? ==> c.Purge?)
      && (e.next.Finish? ==> e.next.reply in {Ok, Failed})
  {}

  lemma DeleteClientResolved(db: DB, h: History, c: AdminCall, t: Time)
    requires c.DeleteClient?
    requires Ready(db, h, Admin(c), t)
    ensures var e := AdminStep(db, c, t); Resolved(e.db, Record(h, Admin(c), e, t), e.next, t)
  {}

  lemma AdminResolved(db: DB, h: History, c: AdminCall, t: Time)
    requires Ready(db, h, Admin(c), t)
    ensures var e := AdminStep(db, c, t); Resolved(e.db, Record(h, Admin(c), e, t), e.next, t)
  {
    if c.Purge? {
      PurgeResolved(db, h, c, t);
    } else if SignOut.TouchesUser(c) {
      SignOutResolved(db, h, c, t);
    } else if c.DeleteClient? {
      DeleteClientResolved(db, h, c, t);
    }
  }

  lemma RequestSparesTokens(db: DB, c: RequestCall, t: Time)
    ensures var e := RequestStep(db, c, t);
      e.db.access == db.access && e.db.refresh == db.refresh && (e.next.Continue? ==> e.next.call.Request?)
  {}

  lemma CheckSparesTokens(db: DB, c: CheckCall, t: Time)
    ensures var e := CheckStep(db, c, t);
      e.db.access == db.access && e.db.refresh == db.refresh && (e.next.Continue? ==> e.next.call.Check?)
  {}

  lemma OtherResolved(db: DB, h: History, c: Call, t: Time)
    requires c.Request? || c.Check?
    requires Ready(db, h, c, t)
    ensures var e := Step(db, c, t); Resolved(e.db, Record(h, c, e, t), e.next, t)
  {
    hide RequestStep, CheckStep;
    if c.Request? { RequestSparesTokens(db, c.request, t); } else { CheckSparesTokens(db, c.check, t); }
  }

  lemma IssueResolved(db: DB, h: History, c: IssueCall, t: Time)
    requires Bookkeeping(db, h) && Unrecorded(Issue(c), h) && Ready(db, h, Issue(c), t)
    ensures var e := IssueStep(db, c, t); Resolved(e.db, Record(h, Issue(c), e, t), e.next, t)
  {
    match c
    case IssuePair(_, _, _) => IssuePairResolved(db, h, c, t);
    case Rotate(_, _, _, _) => IssuePairResolved(db, h, c, t);
    case PairRefresh(_, _, _, _) => PairRefreshResolved(db, h, c, t);
    case RotateTx(_, _, _, _, _) => RotateTxResolved(db, h, c, t);
    case _ => OtherIssueResolved(db, h, c, t);
  }

  lemma StepResolved(db: DB, h: History, c: Call, t: Time)
    requires Bookkeeping(db, h) && Unrecorded(c, h) && Ready(db, h, c, t)
    ensures var e := Step(db, c, t); Resolved(e.db, Record(h, c, e, t), e.next, t)
  {
    hide Record, Ready, Resolved, IssueStep, WithdrawStep, AdminStep;
    match c
    case Issue(i) => IssueResolved(db, h, i, t);
    case Withdraw(w) => WithdrawResolved(db, h, w, t);
    case Admin(a) => AdminResolved(db, h, a, t);
    case Request(_) => OtherResolved(db, h, c, t);
    case Check(_) => OtherResolved(db, h, c, t);
  }

  lemma ReadyLater(db: DB, h: History, c: Call, t: Time, later: Time)
    requires Ready(db, h, c, t) && t <= later
    ensures Ready(db, h, c, later)
  {}

  // --- serial runs ---

  ghost predicate SerialInv(w: World) {
    && Ids(w)
    && Bookkeeping(w.db, w.history)
    && (forall n, m | n in w.pending && m in w.pending :: n == m)
    && (w.pending == map[] ==> Tied(w.db, w.history.returned, None))
    && (forall n | n in w.pending :: Ready(w.db, w.history, w.pending[n], w.now))
  }

  /** What a token call hands out is on record. */
  lemma IssueHandsOut(db: DB, h: History, c: IssueCall, t: Time)
    requires Bookkeeping(db, h) && Ready(db, h, Issue(c), t)
    ensures var e := IssueStep(db, c, t);
      var h' := Record(h, Issue(c), e, t);
      && (forall id | id in h'.returned :: id in h'.access)
      && (forall req | req in h'.loaded :: req in h.loaded || (req.id in db.refresh && Agrees(req, db.refresh)))
  {}

  lemma BookkeepingRecorded(db: DB, h: History, c: Call, t: Time)
    requires Bookkeeping(db, h) && Unrecorded(c, h) && Ready(db, h, c, t)
    ensures var e := Step(db, c, t); Bookkeeping(e.db, Record(h, c, e, t))
  {
    hide Step;
    RecordGrows(db, h, c, t);
    if c.Issue? {
      hide Ready;
      IssueHandsOut(db, h, c.issue, t);
      StepIsIssue(db, c.issue, t);
    }
  }

  lemma BookkeepingKept(w: World, e: Event)
    requires Ids(w) && Bookkeeping(w.db, w.history) && Enabled(w, e)
    requires e.Resume? ==> Ready(w.db, w.history, w.pending[e.caller], e.at)
    ensures Bookkeeping(After(w, e).db, After(w, e).history)
  {
    if e.Resume? {
      hide Step, Record, Bookkeeping, Ready;
      ReservedUnstored(w, e.caller);
      BookkeepingRecorded(w.db, w.history, w.pending[e.caller], e.at);
    }
  }

  lemma StepIsIssue(db: DB, c: IssueCall, t: Time)
    ensures Step(db, Issue(c), t) == IssueStep(db, c, t)
  {}

  lemma SerialInvBegun(w: World, e: Event)
    requires SerialInv(w) && Enabled(w, e) && e.Begin? && w.pending == map[]
    ensures SerialInv(After(w, e))
  {
    hide Ids, Bookkeeping, Tied, Ready;
    IdsKept(w, e);
    BookkeepingKept(w, e);
    NewCallIsReady(w, e);
  }

  lemma NewCallIsReady(w: World, e: Event)
    requires Enabled(w, e) && e.Begin? && Tied(w.db, w.history.returned, None) && Bookkeeping(w.db, w.history)
    ensures Ready(After(w, e).db, After(w, e).history, e.call, w.now)
  {}

  lemma SerialInvResumed(w: World, e: Event)
    requires SerialInv(w) && Enabled(w, e) && e.Resume?
    ensures SerialInv(After(w, e))
  {
    hide Step, Record, Ready, Tied, Ids, Bookkeeping, Resolved;
    var c := w.pending[e.caller];
    IdsKept(w, e);
    assert Unrecorded(c, w.history) by { ReservedUnstored(w, e.caller); }
    ReadyLater(w.db, w.history, c, w.now, e.at);
    BookkeepingKept(w, e);
    StepResolved(w.db, w.history, c, e.at);
    OnlyCallResolved(w, e);
  }

  lemma OnlyCallResolved(w: World, e: Event)
    requires Enabled(w, e) && e.Resume? && (forall n, m | n in w.pending && m in w.pending :: n == m)
    requires var s := Step(w.db, w.pending[e.caller], e.at);
      Resolved(s.db, Record(w.history, w.pending[e.caller], s, e.at), s.next, e.at)
    ensures var w' := After(w, e);
      && (forall n, m | n in w'.pending && m in w'.pending :: n == m)
      && (w'.pending == map[] ==> Tied(w'.db, w'.history.returned, None))
      && (forall n | n in w'.pending :: Ready(w'.db, w'.history, w'.pending[n], w'.now))
  {
    hide Step, Record, Ready, Tied;
    assert Step(w.db, w.pending[e.caller], e.at).next.Continue? ==> e.caller in After(w, e).pending;
  }

  lemma SerialInvKept(w: World, e: Event)
    requires SerialInv(w) && Enabled(w, e) && (e.Begin? ==> w.pending == map[])
    ensures SerialInv(After(w, e))
  {
    hide SerialInv, After;
    if e.Resume? { SerialInvResumed(w, e); } else { SerialInvBegun(w, e); }
  }

  lemma {:induction false} SerialInvAlways(w: World, es: seq<Event>)
    requires SerialInv(w) && Legal(w, es) && Serial(w, es)
    ensures SerialInv(AfterAll(w, es))
    decreases |es|
  {
    if es != [] {
      SerialInvKept(w, es[0]);
      SerialInvAlways(After(w, es[0]), es[1..]);
    }
  }

  // --- main results ---

  /** Between calls of a serial run, every access token handed out with a refresh token is tied to a live one. */
  lemma TiesHold(w0: World, es: seq<Event>)
    requires Init(w0) && Legal(w0, es) && Serial(w0, es) && AfterAll(w0, es).pending == map[]
    ensures var w := AfterAll(w0, es);
      forall id | id in w.db.access && id in w.history.returned :: TiedTo(w.db.access[id], w.db.refresh)
  {
    SerialInvAlways(w0, es);
  }

  /** What a revocation that runs undisturbed does and answers. */
  function Revoked(db: DB, token: Id, client: ClientId): Completed {
    if token in db.access then
      if db.access[token].client != client then Completed(db, Failed) else Completed(DeleteAccess(db, token), Ok)
    else if token in db.refresh then
      if db.refresh[token].client != client then Completed(db, Failed)
      else Completed(DeleteAccessTiedTo(DeleteRefresh(db, token), token, None), Ok)
    else Completed(db, Ok)
  }

  lemma RevokeOutcome(db: DB, token: Id, client: ClientId, clock: seq<Time>)
    requires |clock| >= 4
    ensures Run(db, Withdraw(Revoke(token, client)), clock) == Revoked(db, token, client)
  {
    if token !in db.access && token in db.refresh && db.refresh[token].client == client {
      var deleted := DeleteRefresh(db, token);
      var tied := DeleteAccessTiedTo(deleted, token, None);
      assert Run(deleted, Withdraw(RevokeTied(token)), clock[1..][1..][1..]) == Completed(tied, Ok);
      assert Run(db, Withdraw(RevokeRefresh(token)), clock[1..][1..]) == Completed(tied, Ok);
      assert Run(db, Withdraw(RevokeFindRefresh(token, client)), clock[1..]) == Completed(tied, Ok);
    }
  }

  lemma FamilyEnds(db: DB, h: History, token: Id)
    requires FamiliesDisjoint(db.refresh.Keys, h.refresh.Keys, h.family) && Tied(db, h.returned, None)
    requires token in db.refresh
    ensures var after := DeleteAccessTiedTo(DeleteRefresh(db, token), token, None);
      && FamilyOver(after, h, h.family[token])
      && after.refresh == db.refresh - {token}
      && (forall id | id in db.access && db.access[id].refresh != Some(token) ::
            id in after.access && after.access[id] == db.access[id])
  {
    assert InFamily(h.family, token, h.family[token]);
  }

  /** No refresh token of the family is live, and no access token handed out with one is stored. */
  ghost predicate FamilyOver(db: DB, h: History, f: Id) {
    && (forall id | id in db.refresh :: !InFamily(h.family, id, f))
    && (forall id | id in db.access && id in h.returned && db.access[id].refresh.Some? ::
          !InFamily(h.family, db.access[id].refresh.value, f))
  }

  /**
    Revoking a live refresh token for its own client, between the calls of a serial run,
    leaves no live refresh token in its family and no access token that was ever handed
    out with a refresh token of that family. Nothing else is deleted.
   */
  lemma RevocationEndsFamily(w0: World, es: seq<Event>, token: Id, clock: seq<Time>)
    requires Init(w0) && Legal(w0, es) && Serial(w0, es) && AfterAll(w0, es).pending == map[]
    requires token in AfterAll(w0, es).db.refresh && |clock| >= 4
    ensures var w := AfterAll(w0, es);
      var Completed(after, reply) := Run(w.db, Withdraw(Revoke(token, w.db.refresh[token].client)), clock);
      && reply == Ok
      && token in w.history.family
      && FamilyOver(after, w.history, w.history.family[token])
      && after.refresh == w.db.refresh - {token}
      && (forall id | id in w.db.access && w.db.access[id].refresh != Some(token) ::
            id in after.access && after.access[id] == w.db.access[id])
  {
    hide Run;
    GrantInvInit(w0);
    GrantInvAlways(w0, es);
    SerialInvAlways(w0, es);
    var w := AfterAll(w0, es);
    RevokeOutcome(w.db, token, w.db.refresh[token].client, clock);
    FamilyEnds(w.db, w.history, token);
  }
}
