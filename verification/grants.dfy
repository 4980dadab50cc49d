/**
  Refresh-token rotation under every interleaving.

  The tokens that descend from one first issue form a family. Whatever calls run
  side by side, a family has at most one live refresh token, a refresh token is
  redeemed at most once, and a family that died is never revived.
 */
module Grants {
  import opened Wrappers
  import opened Schema
  import opened Calls
  import opened Interleaving
  import opened Identities

  /** The ways one statement can change the refresh tokens: issue one, replace one by another, or only remove. */
  ghost predicate RefreshCase(before: map<Id, RefreshRow>, c: Call, e: Effect, t: Time) {
    if Issued(e) && c.Issue? && c.issue.PairRefresh? then
      e.db.refresh.Keys == before.Keys + {c.issue.refresh}
    else if Issued(e) && c.Issue? && c.issue.RotateTx? then
      && c.issue.currentId in before
      && c.issue.currentId != c.issue.refresh
      && t <= before[c.issue.currentId].expires
      && e.db.refresh.Keys == before.Keys - {c.issue.currentId} + {c.issue.refresh}
    else
      e.db.refresh.Keys <= before.Keys
  }

  lemma IssueCases(db: DB, c: IssueCall, t: Time)
    requires forall id | id in Reserved(Issue(c)) :: id !in db.refresh
    ensures RefreshCase(db.refresh, Issue(c), IssueStep(db, c, t), t)
  {}

  lemma RefreshCases(db: DB, c: Call, t: Time)
    requires forall id | id in Reserved(c) :: id !in Keys(db)
    ensures RefreshCase(db.refresh, c, Step(db, c, t), t)
  {
    if c.Issue? {
      IssueCases(db, c.issue, t);
    } else {
      hide Step;
      StepExtends(db, c, t);
    }
  }

  predicate InFamily(family: map<Id, Id>, id: Id, f: Id) {
    id in family && family[id] == f
  }

  /** Every token ever stored has a family, named by a token ever stored, and no two live tokens share one. */
  ghost predicate FamiliesDisjoint(live: set<Id>, ever: set<Id>, family: map<Id, Id>) {
    && live <= ever
    && family.Keys == ever
    && (forall id, f | InFamily(family, id, f) :: f in ever)
    && (forall a, b, f | InFamily(family, a, f) && InFamily(family, b, f) && a in live && b in live :: a == b)
  }

  ghost predicate Families(w: World) {
    FamiliesDisjoint(w.db.refresh.Keys, w.history.refresh.Keys, w.history.family)
  }

  lemma FamiliesStep(h: History, before: map<Id, RefreshRow>, c: Call, e: Effect, t: Time)
    requires FamiliesDisjoint(before.Keys, h.refresh.Keys, h.family)
    requires RefreshCase(before, c, e, t)
    requires forall id | id in RefreshKey(c) :: id !in h.refresh
    ensures FamiliesDisjoint(e.db.refresh.Keys, (h.refresh + e.db.refresh).Keys, NextFamily(h, c, e))
  {
    var after := NextFamily(h, c, e);
    var current := if c.Issue? && c.issue.RotateTx? then c.issue.currentId else 0;
    forall id, f | InFamily(after, id, f)
      ensures f in (h.refresh + e.db.refresh).Keys
    {
      assert InFamily(h.family, id, f) || InFamily(h.family, current, f) || f == id;
    }
    forall a, b, f | InFamily(after, a, f) && InFamily(after, b, f) && a in e.db.refresh && b in e.db.refresh
      ensures a == b
    {
      assert InFamily(h.family, a, f) || InFamily(h.family, current, f) || f == a;
      assert InFamily(h.family, b, f) || InFamily(h.family, current, f) || f == b;
    }
  }

  /** Every redeemed token was stored once, is stored no more, and was redeemed once. */
  ghost predicate RedeemedOnce(redeemed: seq<Redemption>, live: set<Id>, ever: set<Id>) {
    && (forall i | 0 <= i < |redeemed| :: redeemed[i].current in ever && redeemed[i].current !in live)
    && (forall i, j | 0 <= i < j < |redeemed| :: redeemed[i].current != redeemed[j].current)
  }

  ghost predicate Redemptions(w: World) {
    RedeemedOnce(w.history.redeemed, w.db.refresh.Keys, w.history.refresh.Keys)
  }

  lemma RedemptionsStep(h: History, before: map<Id, RefreshRow>, c: Call, e: Effect, t: Time)
    requires RedeemedOnce(h.redeemed, before.Keys, h.refresh.Keys)
    requires before.Keys <= h.refresh.Keys
    requires RefreshCase(before, c, e, t)
    requires forall id | id in RefreshKey(c) :: id !in h.refresh
    ensures RedeemedOnce(NextRedeemed(h, c, e), e.db.refresh.Keys, (h.refresh + e.db.refresh).Keys)
  {}

  ghost predicate GrantInv(w: World) {
    Ids(w) && Families(w) && Redemptions(w)
  }

  lemma FamiliesKept(w: World, e: Event)
    requires Ids(w) && Families(w) && Enabled(w, e)
    ensures Families(After(w, e))
  {
    if e.Resume? {
      hide Step;
      ReservedUnstored(w, e.caller);
      RefreshCases(w.db, w.pending[e.caller], e.at);
      ReservedShrinks(w.db, w.pending[e.caller], e.at);
      FamiliesStep(w.history, w.db.refresh, w.pending[e.caller], Step(w.db, w.pending[e.caller], e.at), e.at);
    }
  }

  lemma RedemptionsKept(w: World, e: Event)
    requires Ids(w) && Redemptions(w) && Enabled(w, e)
    ensures Redemptions(After(w, e))
  {
    if e.Resume? {
      hide Step;
      ReservedUnstored(w, e.caller);
      RefreshCases(w.db, w.pending[e.caller], e.at);
      ReservedShrinks(w.db, w.pending[e.caller], e.at);
      RedemptionsStep(w.history, w.db.refresh, w.pending[e.caller], Step(w.db, w.pending[e.caller], e.at), e.at);
    }
  }

  lemma {:induction false} GrantInvAlways(w: World, es: seq<Event>)
    requires GrantInv(w) && Legal(w, es)
    ensures GrantInv(AfterAll(w, es))
    decreases |es|
  {
    if es != [] {
      IdsKept(w, es[0]);
      FamiliesKept(w, es[0]);
      RedemptionsKept(w, es[0]);
      GrantInvAlways(After(w, es[0]), es[1..]);
    }
  }

  lemma GrantInvInit(w: World)
    requires Init(w)
    ensures GrantInv(w)
  {}

  // --- main results ---

  /** A family has at most one live refresh token, and no refresh token is redeemed twice. */
  lemma RotationIsExclusive(w0: World, es: seq<Event>)
    requires Init(w0) && Legal(w0, es)
    ensures var w := AfterAll(w0, es);
      && (forall a, b, f | a in w.db.refresh && b in w.db.refresh
            && InFamily(w.history.family, a, f) && InFamily(w.history.family, b, f) :: a == b)
      && (forall i, j | 0 <= i < |w.history.redeemed| && 0 <= j < |w.history.redeemed| ::
            w.history.redeemed[i].current == w.history.redeemed[j].current ==> i == j)
  {
    GrantInvInit(w0);
    GrantInvAlways(w0, es);
  }

  ghost predicate Dead(w: World, f: Id) {
    && (exists id :: InFamily(w.history.family, id, f))
    && forall id | id in w.db.refresh :: !InFamily(w.history.family, id, f)
  }

  /** Once issued and without a live refresh token, a family never has one again. */
  lemma {:induction false} DeadFamilyStaysDead(w: World, es: seq<Event>, f: Id)
    requires GrantInv(w) && Legal(w, es) && Dead(w, f)
    ensures Dead(AfterAll(w, es), f)
    decreases |es|
  {
    if es != [] {
      DeadStep(w, es[0], f);
      IdsKept(w, es[0]);
      FamiliesKept(w, es[0]);
      RedemptionsKept(w, es[0]);
      DeadFamilyStaysDead(After(w, es[0]), es[1..], f);
    }
  }

  lemma DeadStep(w: World, e: Event, f: Id)
    requires Ids(w) && Families(w) && Enabled(w, e) && Dead(w, f)
    ensures Dead(After(w, e), f)
  {
    if e.Resume? {
      hide Step;
      var c := w.pending[e.caller];
      var effect := Step(w.db, c, e.at);
      ReservedUnstored(w, e.caller);
      RefreshCases(w.db, c, e.at);
      ReservedShrinks(w.db, c, e.at);
      var after := NextFamily(w.history, c, effect);
      var first :| InFamily(w.history.family, first, f);
      assert InFamily(after, first, f);
      var current := if c.Issue? && c.issue.RotateTx? then c.issue.currentId else 0;
      forall id | id in effect.db.refresh
        ensures !InFamily(after, id, f)
      {
        assert InFamily(after, id, f) ==>
          InFamily(w.history.family, id, f) || InFamily(w.history.family, current, f) || f == id;
      }
    }
  }
}
