/**
  Two sites that run the same calls side by side, statement by statement; only the
  first one also purges, in calls that interleave with all the others.

  A call may take more statements at one site than at the other, but only if it is
  bound to fail, or if it named a row that could no longer be found.
 */
module Twins {
  import opened Wrappers
  import opened Schema
  import opened Calls
  import opened Interleaving
  import opened Identities
  import opened Purging
  import Codes

  /** A world with the callers it has seen, those that missed a row, and the answers given. */
  datatype Site = Site(world: World, begun: set<nat>, missed: set<nat>, answers: map<nat, Reply>)

  predicate IsPurge(c: Call) { c.Admin? && c.admin.Purge? }

  /** The statement names a row, whether expired or not, that can no longer be found. */
  predicate Misses(db: DB, c: Call, t: Time) {
    match c
    case Withdraw(Revoke(token, _)) => !TokenLives(db, token, t)
    case Withdraw(RevokeFindRefresh(token, _)) => !TokenLives(db, token, t)
    case Request(SaveCode(id, _)) => !RequestLives(db, id, t)
    case Request(Complete(id, _)) => !RequestLives(db, id, t)
    case _ => false
  }

  /** Each caller makes one call; a purge computes a cutoff at least `grace` behind the clock. */
  ghost predicate Possible(s: Site, e: Event, grace: Time) {
    match e
    case Begin(n, c) =>
      n !in s.begun && Enabled(s.world, e) && (IsPurge(c) ==> c.admin.cutoff <= s.world.now - grace)
    case Resume(n, t) => n in s.begun && s.world.now <= t
  }

  /** A caller whose call has ended does nothing more. */
  function Advance(s: Site, e: Event): Site
    requires e.Begin? ==> Enabled(s.world, e)
    requires e.Resume? ==> s.world.now <= e.at
  {
    match e
    case Begin(n, c) => s.(world := After(s.world, e), begun := s.begun + {n})
    case Resume(n, t) =>
      if n !in s.world.pending then s.(world := s.world.(now := t)) else
      var c := s.world.pending[n];
      var next := Step(s.world.db, c, t).next;
      s.(world := After(s.world, e),
         missed := if Misses(s.world.db, c, t) then s.missed + {n} else s.missed,
         answers := if next.Finish? then s.answers[n := next.reply] else s.answers)
  }

  // --- rows that are gone for good ---

  /** No call in progress can still insert a row under this key, and no later one will draw it. */
  ghost predicate Unreserved(w: World, id: Id) {
    id in w.history.used && forall n | n in w.pending :: id !in Reserved(w.pending[n])
  }

  /** No access token that can be found is tied to the refresh token. */
  ghost predicate TiesSpent(db: DB, token: Id, t: Time) {
    forall id | id in db.access && db.access[id].refresh == Some(token) :: db.access[id].expires < t
  }

  /** A call that will fail and change nothing that anyone can find. */
  ghost predicate Doomed(w: World, c: Call) {
    match c
    case Check(DropSession(id)) => Unreserved(w, id) && !SessionLives(w.db, id, w.now)
    case Request(LoadRequest(id)) => Unreserved(w, id) && !RequestLives(w.db, id, w.now)
    case _ => false
  }

  /** A revocation of a token that nobody can find. */
  ghost predicate Moot(w: World, c: Call) {
    match c
    case Withdraw(RevokeFindRefresh(token, _)) => Unreserved(w, token) && !TokenLives(w.db, token, w.now)
    case Withdraw(RevokeAccess(token)) => Unreserved(w, token) && !TokenLives(w.db, token, w.now)
    case Withdraw(RevokeRefresh(token)) =>
      Unreserved(w, token) && !TokenLives(w.db, token, w.now) && TiesSpent(w.db, token, w.now)
    case Withdraw(RevokeTied(token)) => Unreserved(w, token) && TiesSpent(w.db, token, w.now)
    case _ => false
  }

  lemma StoredIsUnreserved(w: World, id: Id)
    requires Ids(w) && id in Keys(w.db)
    ensures Unreserved(w, id)
  {
    assert Recorded(w.history, id);
  }

  lemma UnreservedKept(w: World, e: Event, id: Id)
    requires Ids(w) && Enabled(w, e) && Unreserved(w, id)
    ensures Unreserved(After(w, e), id)
  {
    if e.Resume? {
      hide Step, OneTable, OnRecord;
      ReservedUnstored(w, e.caller);
      ReservedShrinks(w.db, w.pending[e.caller], e.at);
    }
  }

  /** A statement brings no row back to life whose key it does not reserve. */
  lemma StepKeepsTokenDead(db: DB, c: Call, t: Time, id: Id)
    requires forall k | k in Reserved(c) :: k !in Keys(db)
    requires forall k | Inserts(c, k) :: k in Reserved(c)
    requires id !in Reserved(c) && !TokenLives(db, id, t)
    ensures !TokenLives(Step(db, c, t).db, id, t)
  {
    hide Step;
    StepExtends(db, c, t);
    assert !Inserts(c, id);
  }

  lemma StepKeepsSessionDead(db: DB, c: Call, t: Time, id: Id)
    requires forall k | k in Reserved(c) :: k !in Keys(db)
    requires forall k | Inserts(c, k) :: k in Reserved(c)
    requires id !in Reserved(c) && !SessionLives(db, id, t)
    ensures !SessionLives(Step(db, c, t).db, id, t)
  {
    hide Step;
    StepExtends(db, c, t);
    assert !Inserts(c, id);
  }

  lemma StepKeepsRequestDead(db: DB, c: Call, t: Time, id: Id)
    requires Codes.CodesOwned(db) && id !in Reserved(c) && !RequestLives(db, id, t)
    ensures !RequestLives(Step(db, c, t).db, id, t)
  {
    hide Step, Codes.CodesOwned;
    Codes.AllRowsExplained(db, c, t);
  }

  lemma StepKeepsTiesSpent(db: DB, c: Call, t: Time, token: Id)
    requires forall k | k in Reserved(c) :: k !in Keys(db)
    requires forall k | Inserts(c, k) :: k in Reserved(c)
    requires token !in Reserved(c) && TiesSpent(db, token, t)
    ensures TiesSpent(Step(db, c, t).db, token, t)
  {
    hide Step;
    StepNewTokens(db, c, t);
    StepExtends(db, c, t);
  }

  lemma DeadLater(db: DB, id: Id, t: Time, later: Time)
    requires t <= later
    ensures TokenLives(db, id, later) ==> TokenLives(db, id, t)
    ensures SessionLives(db, id, later) ==> SessionLives(db, id, t)
    ensures RequestLives(db, id, later) ==> RequestLives(db, id, t)
    ensures TiesSpent(db, id, t) ==> TiesSpent(db, id, later)
  {
    SecondsPass(t, later);
  }

  /** What nobody can find stays so, whatever statement runs next. */
  lemma DeadKept(w: World, e: Event, id: Id)
    requires Ids(w) && Codes.CodesOwned(w.db) && Enabled(w, e) && Unreserved(w, id)
    ensures var w' := After(w, e);
      && Unreserved(w', id)
      && (TokenLives(w'.db, id, w'.now) ==> TokenLives(w.db, id, w.now))
      && (SessionLives(w'.db, id, w'.now) ==> SessionLives(w.db, id, w.now))
      && (RequestLives(w'.db, id, w'.now) ==> RequestLives(w.db, id, w.now))
      && (TiesSpent(w.db, id, w.now) ==> TiesSpent(w'.db, id, w'.now))
  {
    UnreservedKept(w, e, id);
    if e.Resume? {
      var c := w.pending[e.caller];
      DeadLater(w.db, id, w.now, e.at);
      ReservedUnstored(w, e.caller);
      ReservedShrinks(w.db, c, e.at);
      hide Step, Record, Ids, TokenLives, SessionLives, RequestLives, TiesSpent, Codes.CodesOwned;
      if !TokenLives(w.db, id, e.at) { StepKeepsTokenDead(w.db, c, e.at, id); }
      if !SessionLives(w.db, id, e.at) { StepKeepsSessionDead(w.db, c, e.at, id); }
      if !RequestLives(w.db, id, e.at) { StepKeepsRequestDead(w.db, c, e.at, id); }
      if TiesSpent(w.db, id, e.at) { StepKeepsTiesSpent(w.db, c, e.at, id); }
    }
  }

  lemma DoomedKept(w: World, e: Event, c: Call)
    requires Ids(w) && Codes.CodesOwned(w.db) && Enabled(w, e) && Doomed(w, c)
    ensures Doomed(After(w, e), c)
  {
    hide Unreserved, SessionLives, RequestLives, After, Ids, Enabled, Codes.CodesOwned;
    match c
    case Check(DropSession(id)) => DeadKept(w, e, id);
    case Request(LoadRequest(id)) => DeadKept(w, e, id);
  }

  lemma MootKept(w: World, e: Event, c: Call)
    requires Ids(w) && Codes.CodesOwned(w.db) && Enabled(w, e) && Moot(w, c)
    ensures Moot(After(w, e), c)
  {
    hide Unreserved, TokenLives, TiesSpent, After, Ids, Enabled, Codes.CodesOwned;
    DeadKept(w, e, c.withdraw.token);
  }

  /** Time alone passes. */
  lemma DoomedLater(w: World, t: Time, c: Call)
    requires w.now <= t
    ensures Doomed(w, c) ==> Doomed(w.(now := t), c)
    ensures Moot(w, c) ==> Moot(w.(now := t), c)
  {
    forall id
      ensures Unreserved(w.(now := t), id) <==> Unreserved(w, id)
    {}
    hide Unreserved, TokenLives, SessionLives, RequestLives, TiesSpent;
    match c
    case Check(DropSession(id)) => DeadLater(w.db, id, w.now, t);
    case Request(LoadRequest(id)) => DeadLater(w.db, id, w.now, t);
    case Withdraw(RevokeFindRefresh(token, _)) => DeadLater(w.db, token, w.now, t);
    case Withdraw(RevokeAccess(token)) => DeadLater(w.db, token, w.now, t);
    case Withdraw(RevokeRefresh(token)) => DeadLater(w.db, token, w.now, t);
    case Withdraw(RevokeTied(token)) => DeadLater(w.db, token, w.now, t);
    case _ =>
  }

  // --- a statement of a call that is doomed or moot ---

  lemma DoomedStep(w: World, n: nat, t: Time)
    requires n in w.pending && w.now <= t && Doomed(w, w.pending[n])
    ensures var e := Step(w.db, w.pending[n], t); Alike(e.db, w.db, t) && e.next == Finish(Failed)
  {
    var c := w.pending[n];
    DoomedLater(w, t, c);
    AlikeItself(w.db, t);
    if c.Check? { DeadSessionUnseen(w.db, c.check.session, t); }
    hide SameSessions, SameTokens, SameRequests;
  }

  lemma MootEffect(db: DB, c: WithdrawCall, t: Time)
    requires TokensOrdered(db)
    requires c.RevokeFindRefresh? || c.RevokeAccess? || c.RevokeRefresh? ==> !TokenLives(db, c.token, t)
    requires c.RevokeRefresh? || c.RevokeTied? ==> TiesSpent(db, c.token, t)
    requires c.RevokeFindRefresh? || c.RevokeAccess? || c.RevokeRefresh? || c.RevokeTied?
    ensures var e := WithdrawStep(db, c, t);
      && SameTokens(e.db, db, t)
      && e.db == db.(access := e.db.access, refresh := e.db.refresh)
      && (e.next.Continue? ==>
            && (c.RevokeFindRefresh? || c.RevokeRefresh?)
            && e.next.call == Withdraw(if c.RevokeFindRefresh? then RevokeRefresh(c.token) else RevokeTied(c.token))
            && (c.RevokeFindRefresh? ==> !TokenLives(e.db, c.token, t))
            && TiesSpent(e.db, c.token, t))
  {
    match c
    case RevokeAccess(token) => DeadAccessUnseen(db, token, t);
    case RevokeRefresh(token) => DeadRefreshUnseen(db, token, t);
    case RevokeTied(token) => DeadTiesUnseen(db, token, t);
    case _ =>
  }

  lemma MootStep(w: World, n: nat, t: Time)
    requires Ids(w) && Enabled(w, Resume(n, t)) && Healthy(w.db, t) && Moot(w, w.pending[n])
    ensures var e := Step(w.db, w.pending[n], t);
      && Alike(e.db, w.db, t)
      && (e.next.Continue? ==> Moot(After(w, Resume(n, t)), e.next.call))
  {
    var c := w.pending[n];
    DoomedLater(w, t, c);
    MootEffect(w.db, c.withdraw, t);
    AlikeItself(w.db, t);
    var after := Step(w.db, c, t).db;
    assert after == WithdrawStep(w.db, c.withdraw, t).db;
    UnreservedKept(w, Resume(n, t), c.withdraw.token);
    hide SameSessions, SameTokens, SameRequests, Ids, Healthy, TiesSpent, TokenLives, Unreserved, Record;
    UntouchedSessions(w.db, w.db, after, w.db, t);
    UntouchedRequests(w.db, w.db, after, w.db, t);
  }

  // --- a statement of a call that is the same at both sites ---

  /** What a call goes on with after its row turned out to be gone at one of the sites. */
  ghost predicate LooksDoomed(db: DB, next: Outcome, t: Time) {
    match next
    case Finish(reply) => reply == Failed
    case Continue(Check(DropSession(id))) => id in db.sessions && !SessionLives(db, id, t)
    case Continue(Request(LoadRequest(id))) => id in db.requests && !RequestLives(db, id, t)
    case _ => false
  }

  ghost predicate LooksMoot(db: DB, next: Outcome, token: Id, t: Time) {
    match next
    case Finish(_) => true
    case Continue(Withdraw(RevokeFindRefresh(id, _))) => id == token && !TokenLives(db, id, t)
    case Continue(Withdraw(RevokeAccess(id))) => id == token && !TokenLives(db, id, t)
    case Continue(Withdraw(RevokeRefresh(id))) => id == token && !TokenLives(db, id, t) && TiesSpent(db, id, t)
    case _ => false
  }

  /** The same, or failing at both sites, or a call that missed the row it named. */
  ghost predicate StillRelated(db1: DB, db2: DB, c: Call, e1: Effect, e2: Effect, t: Time) {
    || e1.next == e2.next
    || (!Misses(db1, c, t) && LooksDoomed(db1, e1.next, t) && LooksDoomed(db2, e2.next, t) && e1.db == db1 && e2.db == db2)
    || (Misses(db1, c, t) && e1.next.Finish? && e2.next.Finish?)
    || (Misses(db1, c, t) && c.Withdraw? && (c.withdraw.Revoke? || c.withdraw.RevokeFindRefresh?)
        && (c.withdraw.token in Keys(db1) || c.withdraw.token in Keys(db2))
        && LooksMoot(db1, e1.next, c.withdraw.token, t) && LooksMoot(db2, e2.next, c.withdraw.token, t)
        && e1.db == db1 && e2.db == db2)
  }

  lemma ByCodeStep(db1: DB, db2: DB, c: Call, t: Time)
    requires SameRequests(db1, db2, t) && Codes.CodesOwned(db1) && Codes.CodesOwned(db2) && c.Request? && c.request.ByCode?
    ensures StillRelated(db1, db2, c, Step(db1, c, t), Step(db2, c, t), t)
    ensures Step(db1, c, t).db == db1 && Step(db2, c, t).db == db2
  {}

  lemma LookupStep(db1: DB, db2: DB, c: Call, t: Time)
    requires SameSessions(db1, db2, t) && c.Check? && c.check.LookupSession?
    ensures StillRelated(db1, db2, c, Step(db1, c, t), Step(db2, c, t), t)
    ensures Step(db1, c, t).db == db1 && Step(db2, c, t).db == db2
  {}

  lemma RevokeLookStep(db1: DB, db2: DB, c: Call, t: Time)
    requires SameTokens(db1, db2, t) && TokensOrdered(db1) && TokensOrdered(db2)
    requires c.Withdraw? && (c.withdraw.Revoke? || c.withdraw.RevokeFindRefresh?)
    ensures StillRelated(db1, db2, c, Step(db1, c, t), Step(db2, c, t), t)
    ensures Step(db1, c, t).db == db1 && Step(db2, c, t).db == db2
  {
    TokenLivesAtBoth(db1, db2, c.withdraw.token, t);
    TokenLivesAtBoth(db2, db1, c.withdraw.token, t);
    hide SameTokens;
  }

  /** Deleting statements that the two sites have in common. */
  lemma DeletionAgrees(db1: DB, db2: DB, c: Call, t: Time)
    requires Alike(db1, db2, t)
    requires (c.Check? && c.check.DropSession?) || (c.Withdraw? && (c.withdraw.RevokeAccess? || c.withdraw.RevokeRefresh? || c.withdraw.RevokeTied?))
    ensures Alike(Step(db1, c, t).db, Step(db2, c, t).db, t) && Step(db1, c, t).next == Step(db2, c, t).next
  {
    var after1, after2 := Step(db1, c, t).db, Step(db2, c, t).db;
    match c
    case Check(DropSession(id)) =>
      SessionDeleted(db1, db2, id, t);
      UntouchedTokens(db1, db2, after1, after2, t);
      UntouchedRequests(db1, db2, after1, after2, t);
      hide SameSessions, SameTokens, SameRequests;
    case Withdraw(w) =>
      TokenDeleted(db1, db2, w.token, t);
      RefreshDeleted(db1, db2, w.token, t);
      TiedDeleted(db1, db2, w.token, None, t);
      UntouchedSessions(db1, db2, after1, after2, t);
      UntouchedRequests(db1, db2, after1, after2, t);
      hide SameSessions, SameTokens, SameRequests;
  }

  lemma PlainStep(db1: DB, db2: DB, c: Call, t: Time)
    requires Alike(db1, db2, t) && Plain(c) && Codes.CodesOwned(db1) && Codes.CodesOwned(db2)
    requires forall id | id in Reserved(c) :: id !in Keys(db1) && id !in Keys(db2)
    ensures Alike(Step(db1, c, t).db, Step(db2, c, t).db, t)
    ensures StillRelated(db1, db2, c, Step(db1, c, t), Step(db2, c, t), t)
  {
    StepAgrees(db1, db2, c, t);
    if c.Request? && c.request.SaveCode? {
      assert c.request.code in Reserved(c);
      SaveCodeDiffersExactly(db1, db2, c.request.id, c.request.code, t);
    } else if c.Request? && c.request.Complete? {
      CompleteDiffersExactly(db1, db2, c.request.id, c.request.user, t);
    }
    hide Step, SameSessions, SameTokens, SameRequests, Codes.CodesOwned;
    assert forall r :: Step(db1, Request(r), t) == RequestStep(db1, r, t) && Step(db2, Request(r), t) == RequestStep(db2, r, t) by {
      RequestSteps(db1, t);
      RequestSteps(db2, t);
    }
    hide RequestStep;
  }

  lemma RequestSteps(db: DB, t: Time)
    ensures forall r :: Step(db, Request(r), t) == RequestStep(db, r, t)
  {
    hide RequestStep;
  }

  /** The next statement of any call but a purge, at two sites that look alike. */
  lemma SameCallStep(db1: DB, db2: DB, c: Call, t: Time)
    requires Alike(db1, db2, t) && !IsPurge(c) && Healthy(db1, t) && Healthy(db2, t)
    requires forall id | id in Reserved(c) :: id !in Keys(db1) && id !in Keys(db2)
    ensures Alike(Step(db1, c, t).db, Step(db2, c, t).db, t)
    ensures StillRelated(db1, db2, c, Step(db1, c, t), Step(db2, c, t), t)
  {
    hide Step, SameSessions, SameTokens, SameRequests, Codes.CodesOwned, TokensOrdered, Bounded;
    if c.Request? && c.request.ByCode? {
      ByCodeStep(db1, db2, c, t);
      hide StillRelated;
    } else if c.Check? && c.check.LookupSession? {
      LookupStep(db1, db2, c, t);
      hide StillRelated;
    } else if c.Withdraw? && (c.withdraw.Revoke? || c.withdraw.RevokeFindRefresh?) {
      RevokeLookStep(db1, db2, c, t);
      hide StillRelated;
    } else if Plain(c) {
      PlainStep(db1, db2, c, t);
      hide StillRelated;
    } else {
      DeletionAgrees(db1, db2, c, t);
      hide Plain;
    }
  }
}
