/**
  The simulation between a site that purges and its twin that does not, event by event.
 */
module Simulation {
  import opened Wrappers
  import opened Schema
  import opened Calls
  import opened Interleaving
  import opened Identities
  import opened Purging
  import opened Twins
  import Codes

  // --- how the same caller stands at the two sites ---

  /** Bound to fail, or failed. */
  ghost predicate WillFail(s: Site, n: nat) {
    if n in s.world.pending then Doomed(s.world, s.world.pending[n]) else n in s.answers && s.answers[n] == Failed
  }

  /** At work on a row that nobody can find, or done with it. */
  ghost predicate WillMiss(s: Site, n: nat) {
    if n in s.world.pending then Moot(s.world, s.world.pending[n]) else n in s.answers
  }

  ghost predicate Same(s1: Site, s2: Site, n: nat) {
    if n in s1.world.pending then n in s2.world.pending && s1.world.pending[n] == s2.world.pending[n]
    else n !in s2.world.pending && n in s1.answers && n in s2.answers && s1.answers[n] == s2.answers[n]
  }

  ghost predicate Related(s1: Site, s2: Site, n: nat) {
    || Same(s1, s2, n)
    || (WillFail(s1, n) && WillFail(s2, n))
    || (n in s1.missed && WillMiss(s1, n) && WillMiss(s2, n))
  }

  ghost predicate SiteInv(s: Site) {
    Ids(s.world) && Healthy(s.world.db, s.world.now) && s.world.pending.Keys <= s.begun
  }

  /** The purges in progress stay the grace period behind the clock. */
  ghost predicate PurgesWait(s: Site, purgers: set<nat>, grace: Time) {
    forall n | n in s.world.pending ::
      if n in purgers then IsPurge(s.world.pending[n]) && s.world.pending[n].admin.cutoff <= s.world.now - grace
      else !IsPurge(s.world.pending[n])
  }

  ghost predicate SameDraws(w1: World, w2: World) {
    w1.history.used == w2.history.used && w1.history.loaded == w2.history.loaded
  }

  ghost predicate TwinSites(s1: Site, s2: Site, purgers: set<nat>, grace: Time) {
    && SiteInv(s1) && SiteInv(s2)
    && s1.begun == s2.begun + purgers && s2.begun !! purgers && s1.missed == s2.missed
    && SameDraws(s1.world, s2.world)
    && s2.world.now <= s1.world.now
    && Alike(s1.world.db, s2.world.db, s1.world.now)
    && PurgesWait(s1, purgers, grace)
    && forall n | n in s2.begun :: Related(s1, s2, n)
  }

  // --- one site at a time ---

  lemma SiteInvKept(s: Site, e: Event, grace: Time)
    requires SiteInv(s) && Possible(s, e, grace)
    ensures SiteInv(Advance(s, e))
  {
    if e.Resume? && e.caller !in s.world.pending {
      HealthyLater(s.world.db, s.world.now, e.at);
      IdsTimeless(s.world, e.at);
      hide Ids, Healthy;
    } else {
      IdsKept(s.world, e);
      if e.Resume? {
        ReservedUnstored(s.world, e.caller);
        hide Step, Record, Ids, TokensOrdered, Bounded, Codes.CodesOwned;
        HealthyLater(s.world.db, s.world.now, e.at);
        StaysHealthy(s.world.db, s.world.pending[e.caller], e.at);
      } else {
        hide Ids, Healthy;
      }
    }
  }

  lemma IdsTimeless(w: World, t: Time)
    requires Ids(w)
    ensures Ids(w.(now := t))
  {}

  /** Whoever does not move stands as before. */
  lemma BystanderKept(s: Site, e: Event, grace: Time, n: nat)
    requires SiteInv(s) && Possible(s, e, grace) && n != e.caller
    ensures var s' := Advance(s, e);
      && (n in s'.world.pending <==> n in s.world.pending)
      && (n in s.world.pending ==> s'.world.pending[n] == s.world.pending[n])
      && (n in s'.answers <==> n in s.answers) && (n in s.answers ==> s'.answers[n] == s.answers[n])
      && (n in s.missed <==> n in s'.missed)
      && (WillFail(s, n) ==> WillFail(s', n))
      && (WillMiss(s, n) ==> WillMiss(s', n))
  {
    hide Step, Record, Ids, TokensOrdered, Bounded, Codes.CodesOwned, Doomed, Moot, Misses;
    if n in s.world.pending {
      var c := s.world.pending[n];
      if e.Resume? && e.caller !in s.world.pending {
        DoomedLater(s.world, e.at, c);
      } else {
        if Doomed(s.world, c) { DoomedKept(s.world, e, c); }
        if Moot(s.world, c) { MootKept(s.world, e, c); }
      }
    }
  }

  lemma StillWaits(s: Site, e: Event, purgers: set<nat>, grace: Time)
    requires PurgesWait(s, purgers, grace) && Possible(s, e, grace)
    requires e.Begin? ==> (e.caller in purgers <==> IsPurge(e.call))
    ensures PurgesWait(Advance(s, e), purgers, grace)
  {
    if e.Resume? && e.caller in s.world.pending {
      PurgeGoesOn(s.world.db, s.world.pending[e.caller], e.at);
    }
    hide Step, Record, Misses;
  }

  lemma PurgeGoesOn(db: DB, c: Call, t: Time)
    ensures var next := Step(db, c, t).next;
      next.Continue? ==>
        && (IsPurge(next.call) <==> IsPurge(c))
        && (IsPurge(c) ==> next.call.admin.cutoff == c.admin.cutoff)
  {}

  // --- what both sites know about an id ---

  lemma ReservesNothing(w: World, c: Call)
    requires Doomed(w, c) || Moot(w, c) || IsPurge(c)
    ensures Reserved(c) == {}
  {}

  lemma UnreservedAcross(s1: Site, s2: Site, purgers: set<nat>, grace: Time, id: Id)
    requires TwinSites(s1, s2, purgers, grace)
    ensures Unreserved(s1.world, id) <==> Unreserved(s2.world, id)
  {
    hide Ids, Healthy, Alike, Doomed, Moot, Reserved, IsPurge;
    forall n | n in s1.world.pending && id in Reserved(s1.world.pending[n])
      ensures n in s2.world.pending && s1.world.pending[n] == s2.world.pending[n]
    {
      var c := s1.world.pending[n];
      if Doomed(s1.world, c) || Moot(s1.world, c) || IsPurge(c) { ReservesNothing(s1.world, c); }
      assert n !in purgers;
      assert Related(s1, s2, n);
    }
    forall n | n in s2.world.pending && id in Reserved(s2.world.pending[n])
      ensures n in s1.world.pending && s1.world.pending[n] == s2.world.pending[n]
    {
      var c := s2.world.pending[n];
      if Doomed(s2.world, c) || Moot(s2.world, c) { ReservesNothing(s2.world, c); }
      assert Related(s1, s2, n);
    }
  }

  lemma StoredUnreserved(s1: Site, s2: Site, purgers: set<nat>, grace: Time, id: Id)
    requires TwinSites(s1, s2, purgers, grace) && (id in Keys(s1.world.db) || id in Keys(s2.world.db))
    ensures Unreserved(s1.world, id) && Unreserved(s2.world, id)
  {
    hide Alike, Healthy, Keys, Related, PurgesWait;
    if id in Keys(s1.world.db) { StoredIsUnreserved(s1.world, id); } else { StoredIsUnreserved(s2.world, id); }
    UnreservedAcross(s1, s2, purgers, grace, id);
  }

  // --- the caller that moves at both sites ---

  /** A site whose call is bound to fail. */
  lemma FailingMove(s: Site, n: nat, t: Time, grace: Time)
    requires SiteInv(s) && Possible(s, Resume(n, t), grace) && WillFail(s, n)
    ensures var s' := Advance(s, Resume(n, t));
      && WillFail(s', n) && Alike(s'.world.db, s.world.db, t)
      && s'.missed == s.missed && SameDraws(s.world, s'.world)
  {
    AlikeItself(s.world.db, t);
    hide Ids, Healthy, Alike;
    if n in s.world.pending {
      DoomedStep(s.world, n, t);
      DoomedMissesNothing(s.world, n, t);
      hide Step, Doomed, Misses;
    }
  }

  lemma DoomedMissesNothing(w: World, n: nat, t: Time)
    requires n in w.pending && Doomed(w, w.pending[n])
    ensures !Misses(w.db, w.pending[n], t) && !w.pending[n].Issue?
  {}

  /** A site whose call is at work on a row that nobody can find. */
  lemma MissingMove(s: Site, n: nat, t: Time, grace: Time)
    requires SiteInv(s) && Possible(s, Resume(n, t), grace) && WillMiss(s, n) && n in s.missed
    ensures var s' := Advance(s, Resume(n, t));
      && WillMiss(s', n) && Alike(s'.world.db, s.world.db, t)
      && s'.missed == s.missed && SameDraws(s.world, s'.world)
  {
    AlikeItself(s.world.db, t);
    hide Ids, TokensOrdered, Bounded, Codes.CodesOwned, Alike;
    if n in s.world.pending {
      HealthyLater(s.world.db, s.world.now, t);
      MootStep(s.world, n, t);
      assert !s.world.pending[n].Issue?;
      hide Step, Moot, Misses;
    }
    assert s.missed + {n} == s.missed;
  }

  ghost predicate SiteMoved(s: Site, s': Site, n: nat, next: Outcome, misses: bool) {
    && (next.Continue? ==> n in s'.world.pending && s'.world.pending[n] == next.call)
    && (next.Finish? ==> n !in s'.world.pending && n in s'.answers && s'.answers[n] == next.reply)
    && s'.missed == (if misses then s.missed + {n} else s.missed)
  }

  lemma Moves(s: Site, n: nat, t: Time)
    requires s.world.now <= t && n in s.world.pending
    ensures var c := s.world.pending[n];
      SiteMoved(s, Advance(s, Resume(n, t)), n, Step(s.world.db, c, t).next, Misses(s.world.db, c, t))
  {
    hide Step, Misses, Record;
  }

  lemma MissesAtBoth(db1: DB, db2: DB, c: Call, t: Time)
    requires Alike(db1, db2, t)
    ensures Misses(db1, c, t) <==> Misses(db2, c, t)
  {}

  lemma DrawsMove(w1: World, w2: World, n: nat, t: Time, c: Call, e1: Effect, e2: Effect)
    requires SameDraws(w1, w2)
    requires e1.next == e2.next || !c.Issue?
    ensures Record(w1.history, c, e1, t).used == Record(w2.history, c, e2, t).used
    ensures Record(w1.history, c, e1, t).loaded == Record(w2.history, c, e2, t).loaded
  {}

  /** The next statement of a call that is the same at both sites. */
  lemma SameMove(s1: Site, s2: Site, purgers: set<nat>, grace: Time, n: nat, t: Time)
    requires TwinSites(s1, s2, purgers, grace) && n in s2.begun && s1.world.now <= t
    requires n in s1.world.pending && n in s2.world.pending && s1.world.pending[n] == s2.world.pending[n]
    ensures var s1', s2' := Advance(s1, Resume(n, t)), Advance(s2, Resume(n, t));
      && Related(s1', s2', n) && Alike(s1'.world.db, s2'.world.db, t)
      && s1'.missed == s2'.missed && SameDraws(s1'.world, s2'.world)
  {
    SameStepAtBoth(s1, s2, purgers, grace, n, t);
    SameMoveEffects(s1, s2, n, t);
    SameMoveRelates(s1, s2, purgers, grace, n, t);
    hide *;
  }

  lemma SameMoveEffects(s1: Site, s2: Site, n: nat, t: Time)
    requires s1.world.now <= t && s2.world.now <= t && SameDraws(s1.world, s2.world) && s1.missed == s2.missed
    requires n in s1.world.pending && n in s2.world.pending && s1.world.pending[n] == s2.world.pending[n]
    requires var db1, db2, c := s1.world.db, s2.world.db, s1.world.pending[n];
      && Alike(db1, db2, t)
      && Alike(Step(db1, c, t).db, Step(db2, c, t).db, t)
      && StillRelated(db1, db2, c, Step(db1, c, t), Step(db2, c, t), t)
    ensures var s1', s2' := Advance(s1, Resume(n, t)), Advance(s2, Resume(n, t));
      && Alike(s1'.world.db, s2'.world.db, t)
      && s1'.missed == s2'.missed && SameDraws(s1'.world, s2'.world)
  {
    var c := s1.world.pending[n];
    var e1, e2 := Step(s1.world.db, c, t), Step(s2.world.db, c, t);
    MissesAtBoth(s1.world.db, s2.world.db, c, t);
    OnlyTheRestDiffers(s1.world.db, s2.world.db, c, e1, e2, t);
    DrawsMove(s1.world, s2.world, n, t, c, e1, e2);
    WorldMoved(s1, n, t);
    WorldMoved(s2, n, t);
    hide Step, Alike, Misses, Record, StillRelated, After;
  }

  lemma SameMoveRelates(s1: Site, s2: Site, purgers: set<nat>, grace: Time, n: nat, t: Time)
    requires TwinSites(s1, s2, purgers, grace) && n in s2.begun && s1.world.now <= t
    requires n in s1.world.pending && n in s2.world.pending && s1.world.pending[n] == s2.world.pending[n]
    requires var db1, db2, c := s1.world.db, s2.world.db, s1.world.pending[n];
      && Alike(db1, db2, t)
      && StillRelated(db1, db2, c, Step(db1, c, t), Step(db2, c, t), t)
    ensures Related(Advance(s1, Resume(n, t)), Advance(s2, Resume(n, t)), n)
  {
    hide Step, Misses, Record, PurgesWait, StillRelated, Related, SiteInv, Alike;
    var c := s1.world.pending[n];
    MissesAtBoth(s1.world.db, s2.world.db, c, t);
    assert n in s1.begun;
    Moves(s1, n, t);
    Moves(s2, n, t);
    SameMoveRelated(s1, s2, purgers, grace, n, t, c, Step(s1.world.db, c, t), Step(s2.world.db, c, t));
  }

  lemma WorldMoved(s: Site, n: nat, t: Time)
    requires n in s.world.pending && s.world.now <= t
    ensures var c := s.world.pending[n];
      var e := Step(s.world.db, c, t);
      var s' := Advance(s, Resume(n, t));
      s'.world.db == e.db && s'.world.history == Record(s.world.history, c, e, t)
  {
    hide Step, Record, Misses;
  }

  lemma SameStepAtBoth(s1: Site, s2: Site, purgers: set<nat>, grace: Time, n: nat, t: Time)
    requires TwinSites(s1, s2, purgers, grace) && n in s2.begun && s1.world.now <= t
    requires n in s1.world.pending && n in s2.world.pending && s1.world.pending[n] == s2.world.pending[n]
    ensures var db1, db2, c := s1.world.db, s2.world.db, s1.world.pending[n];
      && Alike(db1, db2, t)
      && Alike(Step(db1, c, t).db, Step(db2, c, t).db, t)
      && StillRelated(db1, db2, c, Step(db1, c, t), Step(db2, c, t), t)
  {
    var w1, w2, c := s1.world, s2.world, s1.world.pending[n];
    assert !IsPurge(c) by { assert n !in purgers; }
    hide Step, Alike, Healthy, StillRelated, Related, PurgesWait, IsPurge;
    AlikeLater(w1.db, w2.db, w1.now, t);
    HealthyLater(w1.db, w1.now, t);
    HealthyLater(w2.db, w2.now, t);
    ReservedUnstored(w1, n);
    ReservedUnstored(w2, n);
    hide Ids;
    SameCallStep(w1.db, w2.db, c, t);
  }

  lemma OnlyTheRestDiffers(db1: DB, db2: DB, c: Call, e1: Effect, e2: Effect, t: Time)
    requires StillRelated(db1, db2, c, e1, e2, t)
    requires e1 == Step(db1, c, t) && e2 == Step(db2, c, t)
    ensures e1.next == e2.next || !c.Issue?
  {
    if c.Issue? {
      IssueGoesOn(db1, c.issue, t);
      IssueGoesOn(db2, c.issue, t);
    }
    hide Step;
  }

  lemma IssueGoesOn(db: DB, c: IssueCall, t: Time)
    ensures var next := Step(db, Issue(c), t).next; next.Continue? ==> next.call.Issue?
    ensures !Misses(db, Issue(c), t)
  {}

  lemma SameMoveRelated(
      s1: Site, s2: Site, purgers: set<nat>, grace: Time, n: nat, t: Time, c: Call, e1: Effect, e2: Effect)
    requires TwinSites(s1, s2, purgers, grace) && s1.world.now <= t
    requires n in s1.world.pending && n in s2.world.pending && s1.world.pending[n] == c && s2.world.pending[n] == c
    requires n in s2.begun && n in s1.begun
    requires e1 == Step(s1.world.db, c, t) && e2 == Step(s2.world.db, c, t)
    requires StillRelated(s1.world.db, s2.world.db, c, e1, e2, t)
    requires Misses(s1.world.db, c, t) <==> Misses(s2.world.db, c, t)
    requires SiteMoved(s1, Advance(s1, Resume(n, t)), n, e1.next, Misses(s1.world.db, c, t))
    requires SiteMoved(s2, Advance(s2, Resume(n, t)), n, e2.next, Misses(s2.world.db, c, t))
    ensures Related(Advance(s1, Resume(n, t)), Advance(s2, Resume(n, t)), n)
  {
    hide Step, Record, Misses, LooksDoomed, LooksMoot, Doomed, Moot, Same, WillFail, WillMiss, Related, SiteInv, Alike, PurgesWait;
    var s1', s2' := Advance(s1, Resume(n, t)), Advance(s2, Resume(n, t));
    var db1, db2 := s1.world.db, s2.world.db;
    if e1.next == e2.next {
      SameNext(s1, s2, s1', s2', n, e1.next, Misses(db1, c, t));
    } else if !Misses(db1, c, t) {
      LookedDoomed(s1, n, t, e1.next);
      LookedDoomed(s2, n, t, e2.next);
      FailTogether(s1', s2', n);
    } else if e1.next.Finish? && e2.next.Finish? {
      DoneTogether(s1, s2, s1', s2', n, e1.next, e2.next);
    } else {
      var token := c.withdraw.token;
      assert token in Keys(db1) || token in Keys(db2);
      StoredUnreserved(s1, s2, purgers, grace, token);
      LookedMoot(s1, n, t, e1.next, token);
      LookedMoot(s2, n, t, e2.next, token);
      MissTogether(s1', s2', n);
    }
  }

  lemma SameNext(s1: Site, s2: Site, s1': Site, s2': Site, n: nat, next: Outcome, misses: bool)
    requires SiteMoved(s1, s1', n, next, misses) && SiteMoved(s2, s2', n, next, misses)
    ensures Related(s1', s2', n)
  {}

  lemma FailTogether(s1: Site, s2: Site, n: nat)
    requires WillFail(s1, n) && WillFail(s2, n)
    ensures Related(s1, s2, n)
  {}

  lemma MissTogether(s1: Site, s2: Site, n: nat)
    requires n in s1.missed && WillMiss(s1, n) && WillMiss(s2, n)
    ensures Related(s1, s2, n)
  {}

  lemma DoneTogether(s1: Site, s2: Site, s1': Site, s2': Site, n: nat, next1: Outcome, next2: Outcome)
    requires SiteMoved(s1, s1', n, next1, true) && SiteMoved(s2, s2', n, next2, true) && next1.Finish? && next2.Finish?
    ensures Related(s1', s2', n)
  {}

  lemma LookedDoomed(s: Site, n: nat, t: Time, next: Outcome)
    requires SiteInv(s) && n in s.world.pending && s.world.now <= t
    requires LooksDoomed(s.world.db, next, t) && next == Step(s.world.db, s.world.pending[n], t).next
    requires Step(s.world.db, s.world.pending[n], t).db == s.world.db
    ensures WillFail(Advance(s, Resume(n, t)), n)
  {
    hide Step, Record, Misses, Healthy, SessionLives, RequestLives;
    if next.Continue? {
      var id := if next.call.Check? then next.call.check.session else next.call.request.id;
      assert id in Keys(s.world.db);
      StoredIsUnreserved(s.world, id);
      UnreservedKept(s.world, Resume(n, t), id);
    }
    hide Ids, Unreserved;
  }

  lemma LookedMoot(s: Site, n: nat, t: Time, next: Outcome, token: Id)
    requires SiteInv(s) && n in s.world.pending && s.world.now <= t && Unreserved(s.world, token)
    requires LooksMoot(s.world.db, next, token, t) && next == Step(s.world.db, s.world.pending[n], t).next
    requires Step(s.world.db, s.world.pending[n], t).db == s.world.db
    ensures WillMiss(Advance(s, Resume(n, t)), n)
  {
    hide Step, Record, Misses, Healthy, TokenLives, TiesSpent;
    UnreservedKept(s.world, Resume(n, t), token);
    hide Ids, Unreserved;
  }

  // --- events ---

  lemma ChainThrough(a: DB, b: DB, c: DB, d: DB, t: Time)
    requires Alike(a, b, t) && Alike(b, c, t) && Alike(d, c, t)
    ensures Alike(a, d, t)
  {
    hide Alike;
    AlikeBack(d, c, t);
    AlikeChain(a, b, c, t);
    AlikeChain(a, c, d, t);
  }

  lemma FailingMoves(s1: Site, s2: Site, purgers: set<nat>, grace: Time, n: nat, t: Time)
    requires TwinSites(s1, s2, purgers, grace) && n in s2.begun && s1.world.now <= t
    requires WillFail(s1, n) && WillFail(s2, n)
    ensures var s1', s2' := Advance(s1, Resume(n, t)), Advance(s2, Resume(n, t));
      && Related(s1', s2', n) && Alike(s1'.world.db, s2'.world.db, t)
      && s1'.missed == s2'.missed && SameDraws(s1'.world, s2'.world)
  {
    var s1', s2' := Advance(s1, Resume(n, t)), Advance(s2, Resume(n, t));
    hide Step, Record, Misses, SiteInv, PurgesWait, Alike, Doomed, Moot, Same, Advance;
    AlikeLater(s1.world.db, s2.world.db, s1.world.now, t);
    FailingMove(s1, n, t, grace);
    FailingMove(s2, n, t, grace);
    ChainThrough(s1'.world.db, s1.world.db, s2.world.db, s2'.world.db, t);
    hide WillFail, WillMiss;
  }

  lemma MissingMoves(s1: Site, s2: Site, purgers: set<nat>, grace: Time, n: nat, t: Time)
    requires TwinSites(s1, s2, purgers, grace) && n in s2.begun && s1.world.now <= t
    requires n in s1.missed && WillMiss(s1, n) && WillMiss(s2, n)
    ensures var s1', s2' := Advance(s1, Resume(n, t)), Advance(s2, Resume(n, t));
      && Related(s1', s2', n) && Alike(s1'.world.db, s2'.world.db, t)
      && s1'.missed == s2'.missed && SameDraws(s1'.world, s2'.world)
  {
    var s1', s2' := Advance(s1, Resume(n, t)), Advance(s2, Resume(n, t));
    hide Step, Record, Misses, SiteInv, PurgesWait, Alike, Doomed, Moot, Same, Advance;
    AlikeLater(s1.world.db, s2.world.db, s1.world.now, t);
    MissingMove(s1, n, t, grace);
    MissingMove(s2, n, t, grace);
    ChainThrough(s1'.world.db, s1.world.db, s2.world.db, s2'.world.db, t);
    hide WillFail, WillMiss;
  }

  lemma SameMoves(s1: Site, s2: Site, purgers: set<nat>, grace: Time, n: nat, t: Time)
    requires TwinSites(s1, s2, purgers, grace) && n in s2.begun && s1.world.now <= t && Same(s1, s2, n)
    ensures var s1', s2' := Advance(s1, Resume(n, t)), Advance(s2, Resume(n, t));
      && Related(s1', s2', n) && Alike(s1'.world.db, s2'.world.db, t)
      && s1'.missed == s2'.missed && SameDraws(s1'.world, s2'.world)
  {
    hide Step, Record, Misses, SiteInv, PurgesWait, Alike, Doomed, Moot;
    AlikeLater(s1.world.db, s2.world.db, s1.world.now, t);
    if n in s1.world.pending { SameMove(s1, s2, purgers, grace, n, t); }
    hide WillFail, WillMiss;
  }

  /** The caller of a common event, at both sites. */
  lemma MoverKept(s1: Site, s2: Site, purgers: set<nat>, grace: Time, n: nat, t: Time)
    requires TwinSites(s1, s2, purgers, grace) && n in s2.begun && s1.world.now <= t
    ensures var s1', s2' := Advance(s1, Resume(n, t)), Advance(s2, Resume(n, t));
      && Related(s1', s2', n) && Alike(s1'.world.db, s2'.world.db, t)
      && s1'.missed == s2'.missed && SameDraws(s1'.world, s2'.world)
  {
    assert Related(s1, s2, n);
    hide Advance, SiteInv, PurgesWait, SameDraws, Alike, Same, WillFail, WillMiss;
    if Same(s1, s2, n) {
      SameMoves(s1, s2, purgers, grace, n, t);
    } else if WillFail(s1, n) && WillFail(s2, n) {
      FailingMoves(s1, s2, purgers, grace, n, t);
    } else {
      MissingMoves(s1, s2, purgers, grace, n, t);
    }
  }

  lemma BystandersKept(s1: Site, s2: Site, e: Event, grace: Time, n: nat)
    requires SiteInv(s1) && SiteInv(s2) && Possible(s1, e, grace) && Possible(s2, e, grace) && n != e.caller
    requires Related(s1, s2, n)
    ensures Related(Advance(s1, e), Advance(s2, e), n)
  {
    BystanderKept(s1, e, grace, n);
    BystanderKept(s2, e, grace, n);
    hide SiteInv, Possible, Advance, WillFail, WillMiss;
  }

  lemma BystanderAlone(s1: Site, s2: Site, e: Event, grace: Time, n: nat)
    requires SiteInv(s1) && Possible(s1, e, grace) && n != e.caller && Related(s1, s2, n)
    ensures Related(Advance(s1, e), s2, n)
  {
    BystanderKept(s1, e, grace, n);
    hide SiteInv, Possible, Advance, WillFail, WillMiss;
  }

  /** Where a site stands after an event, apart from its tables. */
  lemma Moved(s: Site, e: Event, grace: Time)
    requires Possible(s, e, grace)
    ensures var s' := Advance(s, e);
      && s'.world.now == (if e.Resume? then e.at else s.world.now)
      && s'.begun == (if e.Begin? then s.begun + {e.caller} else s.begun)
      && (e.Begin? ==>
            && s'.missed == s.missed && s'.world.db == s.world.db
            && s'.world.pending == s.world.pending[e.caller := e.call]
            && s'.world.history.used == s.world.history.used + Reserved(e.call)
            && s'.world.history.loaded == s.world.history.loaded)
  {
    hide Step, Record, Misses;
  }

  /** The parts of the simulation relation put together. */
  lemma Together(s1: Site, s2: Site, purgers: set<nat>, grace: Time)
    requires SiteInv(s1) && SiteInv(s2)
    requires s1.begun == s2.begun + purgers && s2.begun !! purgers && s1.missed == s2.missed
    requires SameDraws(s1.world, s2.world) && s2.world.now <= s1.world.now
    requires Alike(s1.world.db, s2.world.db, s1.world.now) && PurgesWait(s1, purgers, grace)
    requires forall n | n in s2.begun :: Related(s1, s2, n)
    ensures TwinSites(s1, s2, purgers, grace)
  {}

  lemma Apart(s1: Site, s2: Site, purgers: set<nat>, grace: Time)
    requires TwinSites(s1, s2, purgers, grace)
    ensures SiteInv(s1) && SiteInv(s2)
    ensures s1.begun == s2.begun + purgers && s2.begun !! purgers && s1.missed == s2.missed
    ensures SameDraws(s1.world, s2.world) && s2.world.now <= s1.world.now
    ensures Alike(s1.world.db, s2.world.db, s1.world.now) && PurgesWait(s1, purgers, grace)
    ensures forall n | n in s2.begun :: Related(s1, s2, n)
  {}

  /** Both sites run the next statement of the same caller, if it has any left. */
  lemma ResumeBoth(s1: Site, s2: Site, purgers: set<nat>, grace: Time, n: nat, t: Time)
    requires TwinSites(s1, s2, purgers, grace) && Possible(s1, Resume(n, t), grace) && n !in purgers
    ensures Possible(s2, Resume(n, t), grace)
    ensures TwinSites(Advance(s1, Resume(n, t)), Advance(s2, Resume(n, t)), purgers, grace)
  {
    var e := Resume(n, t);
    Apart(s1, s2, purgers, grace);
    hide TwinSites, SiteInv, Related, SameDraws, PurgesWait, Alike, After;
    MoverKept(s1, s2, purgers, grace, n, t);
    SiteInvKept(s1, e, grace);
    SiteInvKept(s2, e, grace);
    StillWaits(s1, e, purgers, grace);
    Moved(s1, e, grace);
    Moved(s2, e, grace);
    hide Advance;
    forall m | m in s2.begun && m != n
      ensures Related(Advance(s1, e), Advance(s2, e), m)
    {
      BystandersKept(s1, s2, e, grace, m);
    }
    Together(Advance(s1, e), Advance(s2, e), purgers, grace);
  }

  /** What the first site may begin the second may, too. */
  lemma PossibleAtBoth(s1: Site, s2: Site, purgers: set<nat>, grace: Time, n: nat, c: Call)
    requires TwinSites(s1, s2, purgers, grace) && Possible(s1, Begin(n, c), grace) && !IsPurge(c)
    ensures Possible(s2, Begin(n, c), grace)
  {
    hide Ids, Healthy, Alike, Related, PurgesWait, Entry, DrawsDistinct, Reserved, SpeaksFor;
  }

  lemma StartedAtBoth(s1: Site, s2: Site, grace: Time, n: nat, c: Call)
    requires Possible(s1, Begin(n, c), grace) && Possible(s2, Begin(n, c), grace) && SameDraws(s1.world, s2.world)
    ensures var s1', s2' := Advance(s1, Begin(n, c)), Advance(s2, Begin(n, c));
      Related(s1', s2', n) && SameDraws(s1'.world, s2'.world)
  {
    Moved(s1, Begin(n, c), grace);
    Moved(s2, Begin(n, c), grace);
    hide Advance, Possible, WillFail, WillMiss, Reserved;
  }

  /** Both sites have started the same call. */
  lemma BothStarted(s1: Site, s2: Site, s1': Site, s2': Site, purgers: set<nat>, grace: Time, n: nat)
    requires TwinSites(s1, s2, purgers, grace) && n !in s1.begun
    requires s1'.begun == s1.begun + {n} && s2'.begun == s2.begun + {n}
    requires s1'.missed == s1.missed && s2'.missed == s2.missed
    requires s1'.world.now == s1.world.now && s2'.world.now == s2.world.now
    requires s1'.world.db == s1.world.db && s2'.world.db == s2.world.db
    requires SiteInv(s1') && SiteInv(s2') && SameDraws(s1'.world, s2'.world) && PurgesWait(s1', purgers, grace)
    requires forall m | m in s2.begun || m == n :: Related(s1', s2', m)
    ensures TwinSites(s1', s2', purgers, grace)
  {
    hide SiteInv, Related, SameDraws, PurgesWait, Alike;
    OneMoreBegun(s1.begun, s2.begun, purgers, n);
  }

  lemma OthersWait(s1: Site, s2: Site, purgers: set<nat>, grace: Time, n: nat, c: Call)
    requires TwinSites(s1, s2, purgers, grace)
    requires Possible(s1, Begin(n, c), grace) && Possible(s2, Begin(n, c), grace)
    ensures forall m | m in s2.begun :: Related(Advance(s1, Begin(n, c)), Advance(s2, Begin(n, c)), m)
  {
    var e := Begin(n, c);
    Apart(s1, s2, purgers, grace);
    assert n !in s2.begun;
    hide TwinSites, SiteInv, Related, Possible, Advance;
    forall m | m in s2.begun
      ensures Related(Advance(s1, e), Advance(s2, e), m)
    {
      BystandersKept(s1, s2, e, grace, m);
    }
  }

  /** Both sites start the same call. */
  lemma BeginBoth(s1: Site, s2: Site, purgers: set<nat>, grace: Time, n: nat, c: Call)
    requires TwinSites(s1, s2, purgers, grace) && Possible(s1, Begin(n, c), grace) && !IsPurge(c)
    ensures Possible(s2, Begin(n, c), grace)
    ensures TwinSites(Advance(s1, Begin(n, c)), Advance(s2, Begin(n, c)), purgers, grace)
  {
    var e := Begin(n, c);
    PossibleAtBoth(s1, s2, purgers, grace, n, c);
    Apart(s1, s2, purgers, grace);
    assert n !in s1.begun && n !in purgers;
    hide TwinSites, SiteInv, Related, SameDraws, PurgesWait, Alike, Possible, IsPurge, Advance, Reserved;
    SiteInvKept(s1, e, grace);
    SiteInvKept(s2, e, grace);
    StillWaits(s1, e, purgers, grace);
    StartedAtBoth(s1, s2, grace, n, c);
    OthersWait(s1, s2, purgers, grace, n, c);
    Moved(s1, e, grace);
    Moved(s2, e, grace);
    BothStarted(s1, s2, Advance(s1, e), Advance(s2, e), purgers, grace, n);
  }

  lemma OneMoreBegun(begun1: set<nat>, begun2: set<nat>, purgers: set<nat>, n: nat)
    requires begun1 == begun2 + purgers && begun2 !! purgers && n !in begun1
    ensures begun1 + {n} == (begun2 + {n}) + purgers && (begun2 + {n}) !! purgers
    ensures begun1 + {n} == begun2 + (purgers + {n}) && begun2 !! purgers + {n}
  {}

  lemma PurgeStarts(s: Site, purgers: set<nat>, grace: Time, n: nat, c: Call)
    requires PurgesWait(s, purgers, grace) && Possible(s, Begin(n, c), grace) && IsPurge(c) && n !in s.world.pending
    ensures var s' := Advance(s, Begin(n, c)); PurgesWait(s', purgers + {n}, grace) && SameDraws(s'.world, s.world)
  {
    Moved(s, Begin(n, c), grace);
    assert Reserved(c) == {};
    hide Advance, Enabled, Reserved;
  }

  /** The first site starts a purge. */
  lemma BeginPurge(s1: Site, s2: Site, purgers: set<nat>, grace: Time, n: nat, c: Call)
    requires TwinSites(s1, s2, purgers, grace) && Possible(s1, Begin(n, c), grace) && IsPurge(c)
    ensures TwinSites(Advance(s1, Begin(n, c)), s2, purgers + {n}, grace)
  {
    var e := Begin(n, c);
    Apart(s1, s2, purgers, grace);
    assert n !in s1.begun;
    assert n !in s1.world.pending;
    hide TwinSites, SiteInv, Related, PurgesWait, Alike, After, Enabled, Reserved;
    SiteInvKept(s1, e, grace);
    PurgeStarts(s1, purgers, grace, n, c);
    Moved(s1, e, grace);
    hide Advance;
    forall m | m in s2.begun
      ensures Related(Advance(s1, e), s2, m)
    {
      BystanderAlone(s1, s2, e, grace, m);
    }
    OneMoreBegun(s1.begun, s2.begun, purgers, n);
    Together(Advance(s1, e), s2, purgers + {n}, grace);
  }

  lemma PurgeMoves(s: Site, purgers: set<nat>, grace: Time, n: nat, t: Time)
    requires SiteInv(s) && PurgesWait(s, purgers, grace) && Possible(s, Resume(n, t), grace) && n in purgers
    requires grace >= SAFE_GRACE
    ensures var s' := Advance(s, Resume(n, t));
      Alike(s'.world.db, s.world.db, t) && s'.missed == s.missed && SameDraws(s.world, s'.world)
  {
    AlikeItself(s.world.db, t);
    if n in s.world.pending {
      HealthyLater(s.world.db, s.world.now, t);
      var c := s.world.pending[n].admin;
      hide Alike, Healthy, DeleteExpired, Ids, Record;
      PurgeUnseen(s.world.db, c.table, c.cutoff, t);
      WorldMoved(s, n, t);
      Moves(s, n, t);
      PurgeDrawsNothing(s.world.history, s.world.pending[n], Step(s.world.db, s.world.pending[n], t), t);
      hide Advance;
    } else {
      hide Alike, Healthy, Ids;
    }
  }

  lemma PurgeDrawsNothing(h: History, c: Call, e: Effect, t: Time)
    requires IsPurge(c)
    ensures Record(h, c, e, t).used == h.used && Record(h, c, e, t).loaded == h.loaded
  {}

  /** The first site runs the next statement of a purge. */
  lemma ResumePurge(s1: Site, s2: Site, purgers: set<nat>, grace: Time, n: nat, t: Time)
    requires TwinSites(s1, s2, purgers, grace) && Possible(s1, Resume(n, t), grace) && n in purgers && grace >= SAFE_GRACE
    ensures TwinSites(Advance(s1, Resume(n, t)), s2, purgers, grace)
  {
    var e := Resume(n, t);
    Apart(s1, s2, purgers, grace);
    hide TwinSites, SiteInv, Related, PurgesWait, Alike, After;
    PurgeMoves(s1, purgers, grace, n, t);
    SiteInvKept(s1, e, grace);
    StillWaits(s1, e, purgers, grace);
    Moved(s1, e, grace);
    hide Advance;
    AlikeLater(s1.world.db, s2.world.db, s1.world.now, t);
    AlikeChain(Advance(s1, e).world.db, s1.world.db, s2.world.db, t);
    forall m | m in s2.begun
      ensures Related(Advance(s1, e), s2, m)
    {
      BystanderAlone(s1, s2, e, grace, m);
    }
    Together(Advance(s1, e), s2, purgers, grace);
  }

  // --- runs ---

  ghost predicate AllPossible(s: Site, es: seq<Event>, grace: Time)
    decreases |es|
  {
    es == [] || (Possible(s, es[0], grace) && AllPossible(Advance(s, es[0]), es[1..], grace))
  }

  ghost function Ran(s: Site, es: seq<Event>, grace: Time): Site
    requires AllPossible(s, es, grace)
    decreases |es|
  {
    if es == [] then s else Ran(Advance(s, es[0]), es[1..], grace)
  }

  /** The run without its purges; `purgers` are the callers whose purge has begun before. */
  function Unpurged(es: seq<Event>, purgers: set<nat>): seq<Event>
    decreases |es|
  {
    if es == [] then []
    else match es[0]
      case Begin(n, c) => if IsPurge(c) then Unpurged(es[1..], purgers + {n}) else [es[0]] + Unpurged(es[1..], purgers)
      case Resume(n, _) => if n in purgers then Unpurged(es[1..], purgers) else [es[0]] + Unpurged(es[1..], purgers)
  }

  /**
    Calls that ended at both sites gave the same answer unless they missed the row they
    named, at both; a call that ended at one site only has failed or missed its row.
   */
  ghost predicate AnswersAgree(s1: Site, s2: Site) {
    forall n | n in s2.begun ::
      && (n in s1.missed <==> n in s2.missed)
      && (n in s1.world.pending || n in s1.answers) && (n in s2.world.pending || n in s2.answers)
      && (n !in s2.missed && n !in s1.world.pending && n !in s2.world.pending ==> s1.answers[n] == s2.answers[n])
      && (n !in s2.missed && n in s1.world.pending && n !in s2.world.pending ==> s2.answers[n] == Failed)
      && (n !in s2.missed && n !in s1.world.pending && n in s2.world.pending ==> s1.answers[n] == Failed)
  }

  lemma TwinsAgree(s1: Site, s2: Site, purgers: set<nat>, grace: Time)
    requires TwinSites(s1, s2, purgers, grace)
    ensures AnswersAgree(s1, s2)
  {
    hide SiteInv, Alike, PurgesWait, SameDraws, Doomed, Moot;
    forall n | n in s2.begun
      ensures Related(s1, s2, n)
    {}
  }

  /** One event, at one site or at both. */
  lemma {:induction false} TwinsRun(s1: Site, s2: Site, purgers: set<nat>, es: seq<Event>, grace: Time)
    requires TwinSites(s1, s2, purgers, grace) && AllPossible(s1, es, grace) && grace >= SAFE_GRACE
    ensures AllPossible(s2, Unpurged(es, purgers), grace)
    ensures AnswersAgree(Ran(s1, es, grace), Ran(s2, Unpurged(es, purgers), grace))
    decreases |es|
  {
    hide Advance, Enabled, TwinSites, AnswersAgree, IsPurge;
    if es == [] {
      TwinsAgree(s1, s2, purgers, grace);
    } else {
      var e, rest := es[0], es[1..];
      if e.Begin? && IsPurge(e.call) {
        BeginPurge(s1, s2, purgers, grace, e.caller, e.call);
        TwinsRun(Advance(s1, e), s2, purgers + {e.caller}, rest, grace);
      } else if e.Resume? && e.caller in purgers {
        ResumePurge(s1, s2, purgers, grace, e.caller, e.at);
        TwinsRun(Advance(s1, e), s2, purgers, rest, grace);
      } else {
        if e.Begin? { BeginBoth(s1, s2, purgers, grace, e.caller, e.call); }
        else { ResumeBoth(s1, s2, purgers, grace, e.caller, e.at); }
        TwinsRun(Advance(s1, e), Advance(s2, e), purgers, rest, grace);
        var kept := Unpurged(es, purgers);
        assert kept[0] == e && kept[1..] == Unpurged(rest, purgers);
      }
    }
  }
}
