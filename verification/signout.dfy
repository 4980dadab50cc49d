/**
  Signing a user out everywhere: what a new password, the loss of the admin role
  and the removal of a user take away, and that none of it ever comes back.
 */
module SignOut {
  import opened Wrappers
  import opened Schema
  import opened Calls
  import opened Interleaving
  import opened Identities

  /** `id` is a session, access token or refresh token that belongs to `user`. */
  predicate Held(db: DB, user: UserId, id: Id) {
    || (id in db.sessions && db.sessions[id].user == user)
    || (id in db.access && db.access[id].user == user)
    || (id in db.refresh && db.refresh[id].user == user)
  }

  /** The call changes a password, demotes an admin or removes a user. */
  predicate SignsOut(db: DB, c: AdminCall) {
    || (c.SetPassword? && c.user in db.users && c.length >= 8)
    || (c.SetAdmin? && c.user in db.users && db.users[c.user].isAdmin && !c.admin)
    || (c.RemoveUser? && c.user in db.users)
  }

  predicate TouchesUser(c: AdminCall) { c.SetPassword? || c.SetAdmin? || c.RemoveUser? }

  /** Presenting `id` in any way is refused, whoever presents it. */
  ghost predicate Refused(db: DB, id: Id, t: Time) {
    && Step(db, Check(LookupSession(id)), t).next == Finish(Failed)
    && Step(db, Check(Userinfo(id)), t).next == Finish(Failed)
    && (forall client :: Step(db, Check(Introspect(id, client)), t).next == Finish(Failed))
    && Step(db, Issue(LoadRefresh(id)), t).next == Finish(Failed)
    && (forall scopes, access, refresh, expires ::
          Step(db, Issue(RotateTx(id, scopes, access, refresh, expires)), t) == Effect(db, Finish(Failed)))
  }

  lemma UnknownIsRefused(db: DB, id: Id, t: Time)
    requires id !in Keys(db)
    ensures Refused(db, id, t)
  {}

  /** The rows of `user` are gone and every other row stays. */
  ghost predicate LosesExactly(db: DB, after: DB, user: UserId) {
    && (forall id :: id in after.sessions <==> id in db.sessions && db.sessions[id].user != user)
    && (forall id :: id in after.access <==> id in db.access && db.access[id].user != user)
    && (forall id :: id in after.refresh <==> id in db.refresh && db.refresh[id].user != user)
    && Extends(db.sessions, after.sessions, {}) && Extends(db.access, after.access, {}) && Extends(db.refresh, after.refresh, {})
    && after.requests == db.requests && after.codes == db.codes
  }

  lemma RevokeSessionsExact(db: DB, user: UserId)
    ensures LosesExactly(db, RevokeSessions(db, user), user)
  {}

  lemma DeleteUserExact(db: DB, user: UserId)
    ensures LosesExactly(db, DeleteUser(db, user), user)
  {}

  ghost predicate SameRows(db: DB, after: DB) {
    && after.sessions == db.sessions && after.access == db.access && after.refresh == db.refresh
    && after.requests == db.requests && after.codes == db.codes
  }

  lemma PasswordIsExact(db: DB, c: AdminCall, t: Time)
    requires c.SetPassword?
    ensures var after := AdminStep(db, c, t).db;
      if SignsOut(db, c) then LosesExactly(db, after, c.user) else SameRows(db, after)
  {
    if c.user in db.users {
      RevokeSessionsExact(UpdateUser(db, c.user, db.users[c.user].(passwordHash := c.hash)), c.user);
    }
    hide RevokeSessions;
  }

  lemma RoleIsExact(db: DB, c: AdminCall, t: Time)
    requires c.SetAdmin?
    ensures var after := AdminStep(db, c, t).db;
      if SignsOut(db, c) then LosesExactly(db, after, c.user) else SameRows(db, after)
  {
    if c.user in db.users {
      RevokeSessionsExact(UpdateUser(db, c.user, db.users[c.user].(isAdmin := c.admin)), c.user);
    }
    hide RevokeSessions;
  }

  /**
    A call that signs the user out removes exactly the rows the user holds. Any other
    change to a user (promotion, saving the same role, a short password) removes nothing.
   */
  lemma SignOutIsExact(db: DB, c: AdminCall, t: Time)
    requires TouchesUser(c)
    ensures var after := AdminStep(db, c, t).db;
      if SignsOut(db, c) then LosesExactly(db, after, c.user) else SameRows(db, after)
  {
    if c.SetPassword? {
      PasswordIsExact(db, c, t);
    } else if c.SetAdmin? {
      RoleIsExact(db, c, t);
    } else {
      DeleteUserExact(db, c.user);
    }
    hide LosesExactly, SameRows;
  }

  /** Only the column the call is about changes, and no other account does. */
  ghost predicate AccountChanged(db: DB, after: DB, c: AdminCall)
    requires TouchesUser(c)
  {
    && (forall u | u in db.users && u != c.user :: u in after.users && after.users[u] == db.users[u])
    && (forall u | u in after.users :: u in db.users)
    && (SignsOut(db, c) ==> (c.user in after.users <==> !c.RemoveUser?))
    && (c.SetPassword? && SignsOut(db, c) ==>
          after.users[c.user].passwordHash == c.hash && after.users[c.user].isAdmin == db.users[c.user].isAdmin)
    && (c.SetAdmin? && c.user in db.users ==>
          && c.user in after.users && after.users[c.user].isAdmin == c.admin
          && after.users[c.user].passwordHash == db.users[c.user].passwordHash)
  }

  lemma AccountsChangeExactly(db: DB, c: AdminCall, t: Time)
    requires TouchesUser(c)
    ensures AccountChanged(db, AdminStep(db, c, t).db, c)
  {
    if c.user in db.users && !c.RemoveUser? {
      var row := if c.SetPassword? then db.users[c.user].(passwordHash := c.hash) else db.users[c.user].(isAdmin := c.admin);
      RevokeSessionsKeeps(UpdateUser(db, c.user, row), c.user);
      hide RevokeSessions;
    }
  }

  /** What the user held when the sign-out committed is refused in every later state of every interleaving. */
  lemma SignOutIsPermanent(w: World, n: nat, t: Time, es: seq<Event>, id: Id, later: Time)
    requires Ids(w) && Enabled(w, Resume(n, t))
    requires w.pending[n].Admin? && SignsOut(w.db, w.pending[n].admin)
    requires Held(w.db, w.pending[n].admin.user, id)
    requires Legal(After(w, Resume(n, t)), es)
    ensures Refused(AfterAll(After(w, Resume(n, t)), es).db, id, later)
  {
    hide Step, Refused;
    var w' := After(w, Resume(n, t));
    assert Gone(w', id) by {
      RecordGrows(w.db, w.history, w.pending[n], t);
      HeldIsRemoved(w, w.pending[n].admin, t, id);
    }
    IdsKept(w, Resume(n, t));
    GoneForever(w', es, id);
    UnknownIsRefused(AfterAll(w', es).db, id, later);
  }

  lemma HeldIsRemoved(w: World, c: AdminCall, t: Time, id: Id)
    requires Ids(w) && SignsOut(w.db, c) && Held(w.db, c.user, id)
    ensures Recorded(w.history, id) && id !in Keys(Step(w.db, Admin(c), t).db)
  {
    hide AdminStep;
    SignOutIsExact(w.db, c, t);
  }

  /** A rotation in progress of a refresh token the user held fails and changes nothing. */
  lemma RotationInFlightFails(w: World, n: nat, t: Time, m: nat, later: Time)
    requires Ids(w) && Enabled(w, Resume(n, t)) && m in w.pending && m != n
    requires w.pending[n].Admin? && SignsOut(w.db, w.pending[n].admin)
    requires w.pending[m].Issue? && w.pending[m].issue.RotateTx?
    requires Held(w.db, w.pending[n].admin.user, w.pending[m].issue.currentId)
    ensures var w' := After(w, Resume(n, t));
      m in w'.pending && Step(w'.db, w'.pending[m], later) == Effect(w'.db, Finish(Failed))
  {
    hide Step, Held, SignsOut, Ids;
    var w' := After(w, Resume(n, t));
    HeldIsRemoved(w, w.pending[n].admin, t, w.pending[m].issue.currentId);
    UnknownIsRefused(w'.db, w.pending[m].issue.currentId, later);
  }

  // --- where sign-out stops: calls in progress ---

  ghost predicate HoldsNothing(db: DB, user: UserId) { forall id :: !Held(db, user, id) }

  lemma SignOutLeavesNothing(w: World, n: nat, t: Time)
    requires Enabled(w, Resume(n, t)) && w.pending[n].Admin? && SignsOut(w.db, w.pending[n].admin)
    ensures HoldsNothing(After(w, Resume(n, t)).db, w.pending[n].admin.user)
  {
    SignOutIsExact(w.db, w.pending[n].admin, t);
    hide AdminStep;
  }

  /**
    The next statement issues something to the user without looking at what the user
    still holds: any access token, the refresh token of a first pair, or a session.
   */
  predicate StoresFor(c: Call, user: UserId) {
    match c
    case Issue(IssueAccess(req, _)) => req.subject == Some(user)
    case Issue(IssuePair(req, _, _)) => req.subject == Some(user)
    case Issue(PairRefresh(req, _, _, _)) => req.subject == Some(user)
    case Issue(Rotate(req, _, _, _)) => req.subject == Some(user)
    case Check(IssueSession(_, u)) => u == user
    case _ => false
  }

  lemma AccessStores(db: DB, c: IssueCall, t: Time, user: UserId)
    requires HoldsNothing(db, user) && (c.IssueAccess? || c.IssuePair? || c.Rotate?) && c.access !in db.access
    ensures !HoldsNothing(IssueStep(db, c, t).db, user) <==> StoresFor(Issue(c), user) && user in db.users
  {
    var after := IssueStep(db, c, t).db;
    if StoresFor(Issue(c), user) && user in db.users {
      assert Held(after, user, c.access);
    } else {
      forall id
        ensures !Held(after, user, id)
      {
        assert !Held(db, user, id);
      }
    }
  }

  lemma PairStores(db: DB, c: IssueCall, t: Time, user: UserId)
    requires HoldsNothing(db, user) && c.PairRefresh? && c.refresh !in db.refresh
    ensures !HoldsNothing(IssueStep(db, c, t).db, user) <==> StoresFor(Issue(c), user) && user in db.users
  {
    var after := IssueStep(db, c, t).db;
    if StoresFor(Issue(c), user) && user in db.users {
      assert Held(after, user, c.refresh);
    } else {
      forall id
        ensures !Held(after, user, id)
      {
        assert !Held(db, user, id);
      }
    }
  }

  lemma RotationStoresNothing(db: DB, c: IssueCall, t: Time, user: UserId)
    requires HoldsNothing(db, user) && (c.RotateTx? || c.LoadRefresh?)
    ensures HoldsNothing(IssueStep(db, c, t).db, user)
  {
    assert c.RotateTx? && c.currentId in db.refresh ==> !Held(db, user, c.currentId);
    forall id
      ensures !Held(IssueStep(db, c, t).db, user, id)
    {
      assert !Held(db, user, id);
    }
  }

  lemma IssueStores(db: DB, c: IssueCall, t: Time, user: UserId)
    requires HoldsNothing(db, user) && forall id | id in Reserved(Issue(c)) :: id !in Keys(db)
    ensures !HoldsNothing(IssueStep(db, c, t).db, user) <==> StoresFor(Issue(c), user) && user in db.users
  {
    hide HoldsNothing, IssueStep;
    if c.PairRefresh? {
      assert c.refresh in Reserved(Issue(c));
      PairStores(db, c, t, user);
    } else if c.RotateTx? || c.LoadRefresh? {
      RotationStoresNothing(db, c, t, user);
    } else {
      assert c.access in Reserved(Issue(c));
      AccessStores(db, c, t, user);
    }
  }

  lemma SessionStores(db: DB, c: CheckCall, t: Time, user: UserId)
    requires HoldsNothing(db, user) && forall id | id in Reserved(Check(c)) :: id !in Keys(db)
    ensures !HoldsNothing(CheckStep(db, c, t).db, user) <==> StoresFor(Check(c), user) && user in db.users
  {
    if c.IssueSession? {
      assert c.session in Reserved(Check(c));
      if StoresFor(Check(c), user) && user in db.users { assert Held(CheckStep(db, c, t).db, user, c.session); }
    }
    forall id | !(StoresFor(Check(c), user) && user in db.users)
      ensures !Held(CheckStep(db, c, t).db, user, id)
    {
      assert !Held(db, user, id);
    }
  }

  lemma OthersStoreNothing(db: DB, c: Call, t: Time, user: UserId)
    requires HoldsNothing(db, user) && !c.Issue? && !c.Check?
    ensures HoldsNothing(Step(db, c, t).db, user)
  {
    hide Step;
    RowsOnlyShrink(db, c, t);
    forall id
      ensures !Held(Step(db, c, t).db, user, id)
    {
      assert !Held(db, user, id);
    }
  }

  lemma RowsOnlyShrink(db: DB, c: Call, t: Time)
    requires !c.Issue? && !c.Check?
    ensures var after := Step(db, c, t).db;
      Extends(db.refresh, after.refresh, {}) && Extends(db.access, after.access, {}) && Extends(db.sessions, after.sessions, {})
  {
    if c.Withdraw? {
      WithdrawKeeps(db, c.withdraw, t);
      hide WithdrawStep, Extends;
    } else if c.Admin? {
      AdminKeeps(db, c.admin, t);
      hide AdminStep, Extends;
    } else {
      RequestsSpareTokens(db, c.request, t);
    }
  }

  lemma RequestsSpareTokens(db: DB, c: RequestCall, t: Time)
    ensures var after := RequestStep(db, c, t).db;
      after.refresh == db.refresh && after.access == db.access && after.sessions == db.sessions
  {}

  /**
    While a user who was signed out holds nothing, a call in progress gives the user a row
    exactly if it is one of those calls and the user still exists. A rotation that has
    reached its transaction never does.
   */
  lemma InFlightStoresExactly(w: World, m: nat, t: Time, user: UserId)
    requires Ids(w) && m in w.pending && HoldsNothing(w.db, user)
    ensures !HoldsNothing(Step(w.db, w.pending[m], t).db, user) <==> StoresFor(w.pending[m], user) && user in w.db.users
  {
    var c := w.pending[m];
    ReservedUnstored(w, m);
    hide Ids, IssueStep, CheckStep, WithdrawStep, RequestStep, AdminStep, StoresFor, HoldsNothing;
    if c.Issue? {
      IssueStores(w.db, c.issue, t, user);
    } else if c.Check? {
      SessionStores(w.db, c.check, t, user);
    } else {
      OthersStoreNothing(w.db, c, t, user);
      StoresForOnly(c, user);
    }
  }

  lemma StoresForOnly(c: Call, user: UserId)
    requires !c.Issue? && !c.Check?
    ensures !StoresFor(c, user)
  {}
}
