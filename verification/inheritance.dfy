/**
  What a rotated refresh token inherits: in every interleaving each token of a family
  speaks for the user, client, audience and time of authentication of the first one.
 */
module Inheritance {
  import opened Wrappers
  import opened Schema
  import opened Calls
  import opened Interleaving
  import opened Identities
  import opened Grants

  predicate SameGrant(a: RefreshRow, b: RefreshRow) {
    a.user == b.user && a.client == b.client && a.audience == b.audience && a.authTime == b.authTime
  }

  ghost predicate Inherited(ever: map<Id, RefreshRow>, family: map<Id, Id>) {
    forall id, f | InFamily(family, id, f) && id in ever && f in ever :: SameGrant(ever[id], ever[f])
  }

  /** The row a rotation stores. */
  lemma RotationInherits(db: DB, c: IssueCall, t: Time)
    requires c.RotateTx? && c.refresh !in db.refresh && Issued(IssueStep(db, c, t))
    ensures var after := IssueStep(db, c, t).db.refresh;
      && c.currentId in db.refresh && c.refresh in after
      && SameGrant(after[c.refresh], db.refresh[c.currentId])
      && after[c.refresh].scopes == c.scopes
      && after[c.refresh].expires == t + REFRESH_TOKEN_TTL
  {}

  lemma InheritedStep(
      ever: map<Id, RefreshRow>, ever': map<Id, RefreshRow>, family: map<Id, Id>, family': map<Id, Id>, current: Id, successor: Id)
    requires Inherited(ever, family) && Extends(ever', ever, {})
    requires forall id | id in ever' :: id in ever || id == successor
    requires forall id, f | InFamily(family, id, f) :: id in ever && f in ever
    requires current in family && successor !in ever && family' == family[successor := family[current]]
    requires successor in ever' && current in ever && SameGrant(ever'[successor], ever[current])
    ensures Inherited(ever', family')
  {
    assert InFamily(family, current, family[current]);
    forall id, f | InFamily(family', id, f) && id in ever' && f in ever'
      ensures SameGrant(ever'[id], ever'[f])
    {
      if id != successor { assert InFamily(family, id, f); }
    }
  }

  lemma FirstStep(ever: map<Id, RefreshRow>, ever': map<Id, RefreshRow>, family: map<Id, Id>, first: Id)
    requires Inherited(ever, family) && Extends(ever', ever, {})
    requires forall id | id in ever' :: id in ever || id == first
    requires forall id, f | InFamily(family, id, f) :: id in ever && f in ever
    requires first !in ever
    ensures Inherited(ever', family[first := first]) && Inherited(ever', family)
  {
    forall id, f | InFamily(family[first := first], id, f) && id in ever' && f in ever'
      ensures SameGrant(ever'[id], ever'[f])
    {
      if id != first { assert InFamily(family, id, f); }
    }
  }

  lemma UnchangedStep(ever: map<Id, RefreshRow>, ever': map<Id, RefreshRow>, family: map<Id, Id>)
    requires Inherited(ever, family) && Extends(ever', ever, {})
    requires forall id, f | InFamily(family, id, f) :: id in ever && f in ever
    ensures Inherited(ever', family)
  {}

  lemma FamiliesKnown(live: set<Id>, ever: set<Id>, family: map<Id, Id>)
    requires FamiliesDisjoint(live, ever, family)
    ensures forall id, f | InFamily(family, id, f) :: id in ever && f in ever
  {}

  lemma InheritedByIssue(db: DB, h: History, c: IssueCall, t: Time)
    requires OnRecord(db, h) && Unrecorded(Issue(c), h) && Inherited(h.refresh, h.family)
    requires FamiliesDisjoint(db.refresh.Keys, h.refresh.Keys, h.family)
    requires c.PairRefresh? || c.RotateTx?
    requires c.refresh !in h.refresh && c.refresh !in db.refresh
    requires Issued(IssueStep(db, c, t))
    ensures var h' := Record(h, Issue(c), Step(db, Issue(c), t), t); Inherited(h'.refresh, h'.family)
  {
    var e := Step(db, Issue(c), t);
    var h' := Record(h, Issue(c), e, t);
    assert e == IssueStep(db, c, t);
    RecordGrows(db, h, Issue(c), t);
    FamiliesKnown(db.refresh.Keys, h.refresh.Keys, h.family);
    if c.PairRefresh? {
      hide Step, IssueStep, Inherited, FamiliesDisjoint, OnRecord;
      FirstStep(h.refresh, h'.refresh, h.family, c.refresh);
    } else {
      RotationInherits(db, c, t);
      assert h.refresh[c.currentId] == db.refresh[c.currentId];
      assert h'.refresh[c.refresh] == e.db.refresh[c.refresh];
      hide Step, IssueStep, Inherited, OnRecord, SameGrant;
      InheritedStep(h.refresh, h'.refresh, h.family, h'.family, c.currentId, c.refresh);
    }
  }

  lemma InheritedKept(w: World, e: Event)
    requires GrantInv(w) && Enabled(w, e) && Inherited(w.history.refresh, w.history.family)
    ensures var w' := After(w, e); Inherited(w'.history.refresh, w'.history.family)
  {
    if e.Resume? {
      hide Step, Inherited, OneTable;
      var c := w.pending[e.caller];
      var effect := Step(w.db, c, e.at);
      ReservedUnstored(w, e.caller);
      RecordGrows(w.db, w.history, c, e.at);
      if c.Issue? && (c.issue.PairRefresh? || c.issue.RotateTx?) && Issued(effect) {
        assert c.issue.refresh in Reserved(c);
        StepOfIssue(w.db, c.issue, e.at);
        InheritedByIssue(w.db, w.history, c.issue, e.at);
      } else {
        FamiliesKnown(w.db.refresh.Keys, w.history.refresh.Keys, w.history.family);
        SameFamilies(w.db, w.history, c, e.at);
        UnchangedStep(w.history.refresh, After(w, e).history.refresh, w.history.family);
      }
    }
  }

  lemma StepOfIssue(db: DB, c: IssueCall, t: Time)
    ensures Step(db, Issue(c), t) == IssueStep(db, c, t)
  {}

  /** Only a first issue and a rotation hand out a pair. */
  lemma SameFamilies(db: DB, h: History, c: Call, t: Time)
    requires !(c.Issue? && (c.issue.PairRefresh? || c.issue.RotateTx?) && Issued(Step(db, c, t)))
    ensures NextFamily(h, c, Step(db, c, t)) == h.family
  {
    hide Step;
  }

  lemma {:induction false} InheritedAlways(w: World, es: seq<Event>)
    requires GrantInv(w) && Inherited(w.history.refresh, w.history.family) && Legal(w, es)
    ensures var w' := AfterAll(w, es); Inherited(w'.history.refresh, w'.history.family)
    decreases |es|
  {
    if es != [] {
      hide Inherited;
      InheritedKept(w, es[0]);
      assert GrantInv(After(w, es[0])) by {
        IdsKept(w, es[0]);
        FamiliesKept(w, es[0]);
        RedemptionsKept(w, es[0]);
      }
      hide GrantInv;
      InheritedAlways(After(w, es[0]), es[1..]);
    }
  }

  /** However often a grant is rotated, whatever runs beside it, it stays a grant of the same user to the same client. */
  lemma RotationKeepsGrant(w0: World, es: seq<Event>, id: Id, f: Id)
    requires Init(w0) && Legal(w0, es)
    requires var h := AfterAll(w0, es).history; id in h.refresh && f in h.refresh && InFamily(h.family, id, f)
    ensures var h := AfterAll(w0, es).history; SameGrant(h.refresh[id], h.refresh[f])
  {
    hide SameGrant;
    assert Inherited(w0.history.refresh, w0.history.family);
    GrantInvInit(w0);
    InheritedAlways(w0, es);
  }
}
