/**
  When revoking a refresh token ends its family although other calls run in between,
  and when it does not. The same for ending a session.
 */
module Revocation {
  import opened Wrappers
  import opened Schema
  import opened Calls
  import opened Interleaving
  import opened Identities
  import opened Grants

  /** The next statement is the last that could delete a refresh token: the DELETE, or a SELECT that finds nothing to delete. */
  ghost predicate Decides(w: World, n: nat, token: Id) {
    && n in w.pending && w.pending[n].Withdraw?
    && var c := w.pending[n].withdraw;
       c == RevokeRefresh(token) || (c.RevokeFindRefresh? && c.token == token && token !in w.db.refresh)
  }

  /**
    The deciding statement leaves the family without a live token exactly if it deletes a
    row or the family had no live token before.
   */
  lemma RevocationDecides(w: World, n: nat, t: Time, token: Id, f: Id)
    requires GrantInv(w) && Enabled(w, Resume(n, t)) && Decides(w, n, token) && InFamily(w.history.family, token, f)
    ensures Dead(After(w, Resume(n, t)), f) <==> token in w.db.refresh || Dead(w, f)
  {
    var w' := After(w, Resume(n, t));
    assert w'.history.family == w.history.family;
    assert InFamily(w'.history.family, token, f);
    assert w'.db.refresh == w.db.refresh - {token};
    hide Step, Ids, Redemptions;
    if token !in w.db.refresh { assert w.db.refresh - {token} == w.db.refresh; }
  }

  ghost predicate Redeemed(h: History, token: Id) {
    exists i | 0 <= i < |h.redeemed| :: h.redeemed[i].current == token
  }

  /** The live token of a family leaves by being redeemed, or takes the family with it. */
  lemma LiveOrRedeemedOrDeadStep(w: World, e: Event, token: Id, f: Id)
    requires GrantInv(w) && Enabled(w, e) && InFamily(w.history.family, token, f)
    requires token in w.db.refresh || Redeemed(w.history, token) || Dead(w, f)
    ensures var w' := After(w, e);
      InFamily(w'.history.family, token, f) && (token in w'.db.refresh || Redeemed(w'.history, token) || Dead(w', f))
  {
    if e.Resume? {
      var c := w.pending[e.caller];
      ReservedUnstored(w, e.caller);
      RefreshCases(w.db, c, e.at);
      ReservedShrinks(w.db, c, e.at);
      if Dead(w, f) { DeadStep(w, e, f); }
      hide Step, Ids, Redemptions;
      LeavesTheTable(w.history, w.db.refresh, c, Step(w.db, c, e.at), e.at, token, f);
    }
  }

  lemma LeavesTheTable(h: History, before: map<Id, RefreshRow>, c: Call, e: Effect, t: Time, token: Id, f: Id)
    requires FamiliesDisjoint(before.Keys, h.refresh.Keys, h.family) && InFamily(h.family, token, f)
    requires RefreshCase(before, c, e, t) && forall id | id in RefreshKey(c) :: id !in h.refresh
    ensures InFamily(NextFamily(h, c, e), token, f)
    ensures forall i | 0 <= i < |h.redeemed| :: i < |NextRedeemed(h, c, e)| && NextRedeemed(h, c, e)[i] == h.redeemed[i]
    ensures token in before && token !in e.db.refresh ==>
      || (|NextRedeemed(h, c, e)| > 0 && NextRedeemed(h, c, e)[|NextRedeemed(h, c, e)| - 1].current == token)
      || (forall id | id in e.db.refresh :: !InFamily(NextFamily(h, c, e), id, f))
  {
    var after := NextFamily(h, c, e);
    var current := if c.Issue? && c.issue.RotateTx? then c.issue.currentId else 0;
    assert token in h.refresh;
    assert c.Issue? && (c.issue.PairRefresh? || c.issue.RotateTx?) ==> c.issue.refresh in RefreshKey(c) && c.issue.refresh != token;
    forall id | id in e.db.refresh && InFamily(after, id, f) && token in before && token !in e.db.refresh
      ensures current == token && Issued(e) && c.Issue? && c.issue.RotateTx?
    {
      assert InFamily(h.family, id, f) || InFamily(h.family, current, f) || f == id;
    }
    assert InFamily(after, token, f);
    var redeemed := NextRedeemed(h, c, e);
    assert forall i | 0 <= i < |h.redeemed| :: i < |redeemed| && redeemed[i] == h.redeemed[i];
    if token in before && token !in e.db.refresh {
      if id :| id in e.db.refresh && InFamily(after, id, f) {
        assert redeemed == h.redeemed + [Redemption(token, c.issue.refresh)];
      }
    }
  }

  lemma {:induction false} LiveOrRedeemedOrDead(w: World, es: seq<Event>, token: Id, f: Id)
    requires GrantInv(w) && Legal(w, es) && InFamily(w.history.family, token, f)
    requires token in w.db.refresh || Redeemed(w.history, token) || Dead(w, f)
    ensures var w' := AfterAll(w, es);
      && GrantInv(w')
      && InFamily(w'.history.family, token, f) && (token in w'.db.refresh || Redeemed(w'.history, token) || Dead(w', f))
    decreases |es|
  {
    if es != [] {
      LiveOrRedeemedOrDeadStep(w, es[0], token, f);
      IdsKept(w, es[0]);
      FamiliesKept(w, es[0]);
      RedemptionsKept(w, es[0]);
      assert GrantInv(After(w, es[0]));
      hide GrantInv, Dead, Redeemed, After, Enabled;
      LiveOrRedeemedOrDead(After(w, es[0]), es[1..], token, f);
    }
  }

  /**
    Of a token that was live when its revocation began, the family lives on after the
    deciding statement exactly if a rotation redeemed the token first, between any two
    statements of the revocation, and a descendant is still live.
   */
  lemma RevocationFailsExactly(w: World, es: seq<Event>, n: nat, t: Time, token: Id, f: Id)
    requires GrantInv(w) && token in w.db.refresh && InFamily(w.history.family, token, f)
    requires Legal(w, es) && Enabled(AfterAll(w, es), Resume(n, t)) && Decides(AfterAll(w, es), n, token)
    ensures var w' := AfterAll(w, es);
      !Dead(After(w', Resume(n, t)), f) <==> Redeemed(w'.history, token) && !Dead(w', f)
  {
    LiveOrRedeemedOrDead(w, es, token, f);
    var w' := AfterAll(w, es);
    RevocationDecides(w', n, t, token, f);
    hide Dead, After, AfterAll, Legal, Enabled, Decides, Ids, Families;
  }

  /** Whatever runs afterwards, a family that the revocation ended stays ended. */
  lemma RevocationIsPermanent(w: World, n: nat, t: Time, token: Id, f: Id, es: seq<Event>)
    requires GrantInv(w) && Enabled(w, Resume(n, t)) && Decides(w, n, token) && InFamily(w.history.family, token, f)
    requires token in w.db.refresh && Legal(After(w, Resume(n, t)), es)
    ensures Dead(AfterAll(After(w, Resume(n, t)), es), f)
  {
    RevocationDecides(w, n, t, token, f);
    var e := Resume(n, t);
    IdsKept(w, e);
    FamiliesKept(w, e);
    RedemptionsKept(w, e);
    assert GrantInv(After(w, e));
    hide GrantInv, Dead, After, Decides;
    DeadFamilyStaysDead(After(w, e), es, f);
  }

  // --- ending a session ---

  predicate IssuedTo(a: AccessRow, user: UserId, client: ClientId) { a.user == user && a.client == client }

  /** A token of the user for the client is stored. */
  ghost predicate Remains(db: DB, user: UserId, client: ClientId) {
    || (exists id :: id in db.access && IssuedTo(db.access[id], user, client))
    || (exists id :: id in db.refresh && db.refresh[id].user == user && db.refresh[id].client == client)
  }

  lemma AccessRecordStep(w: World, e: Event, id: Id)
    requires Ids(w) && Enabled(w, e) && id in w.history.access
    ensures var h := After(w, e).history; id in h.access && h.access[id] == w.history.access[id]
  {
    if e.Resume? {
      ReservedUnstored(w, e.caller);
      RecordGrows(w.db, w.history, w.pending[e.caller], e.at);
      hide Step, Record;
    }
  }

  /** What was once recorded of an access token stays on record. */
  lemma {:induction false} AccessRecordKept(w: World, es: seq<Event>, id: Id)
    requires Ids(w) && Legal(w, es) && id in w.history.access
    ensures var w' := AfterAll(w, es); Ids(w') && id in w'.history.access && w'.history.access[id] == w.history.access[id]
    decreases |es|
  {
    if es != [] {
      AccessRecordStep(w, es[0], id);
      IdsKept(w, es[0]);
      hide Ids, After, Enabled;
      AccessRecordKept(After(w, es[0]), es[1..], id);
    }
  }

  lemma FirstDeletion(w: World, n: nat, t: Time, user: UserId, client: ClientId)
    requires Ids(w) && Enabled(w, Resume(n, t)) && w.pending[n] == Withdraw(Terminate(Some(user), client))
    ensures forall id | id in After(w, Resume(n, t)).db.access :: !IssuedTo(After(w, Resume(n, t)).db.access[id], user, client)
  {}

  lemma SecondDeletion(w: World, n: nat, t: Time, user: UserId, client: ClientId)
    requires Enabled(w, Resume(n, t)) && w.pending[n] == Withdraw(TerminateRefresh(user, client))
    ensures Remains(After(w, Resume(n, t)).db, user, client)
      <==> exists id :: id in w.db.access && IssuedTo(w.db.access[id], user, client)
  {}

  /** No access token of the user for the client that was on record when there was none stored comes back. */
  lemma OldOnesStayAway(w: World, es: seq<Event>, user: UserId, client: ClientId, id: Id)
    requires Ids(w) && Legal(w, es) && id in w.history.access
    requires forall k | k in w.db.access :: !IssuedTo(w.db.access[k], user, client)
    ensures id in AfterAll(w, es).db.access ==> !IssuedTo(AfterAll(w, es).db.access[id], user, client)
  {
    AccessRecordKept(w, es, id);
    if id in w.db.access {
      assert w.db.access[id] == w.history.access[id];
    } else {
      NotInOtherTables(w, id);
      GoneForever(w, es, id);
    }
  }

  lemma NotInOtherTables(w: World, id: Id)
    requires Ids(w) && id in w.history.access && id !in w.db.access
    ensures Gone(w, id)
  {}

  /**
    Ending a session, with anything between its two statements, leaves a token of the user
    for the client exactly if an access token for them was stored in between and is still
    there when the second statement runs.
   */
  lemma TerminationFailsExactly(
      w: World, n: nat, t: Time, es: seq<Event>, t': Time, user: UserId, client: ClientId)
    requires Ids(w) && Enabled(w, Resume(n, t)) && w.pending[n] == Withdraw(Terminate(Some(user), client))
    requires Legal(After(w, Resume(n, t)), es)
    requires var w2 := AfterAll(After(w, Resume(n, t)), es);
      Enabled(w2, Resume(n, t')) && w2.pending[n] == Withdraw(TerminateRefresh(user, client))
    ensures var w1 := After(w, Resume(n, t));
      var w2 := AfterAll(w1, es);
      Remains(After(w2, Resume(n, t')).db, user, client) <==>
        exists id :: id in w2.db.access && IssuedTo(w2.db.access[id], user, client) && id !in w1.history.access
  {
    var w1 := After(w, Resume(n, t));
    var w2 := AfterAll(w1, es);
    FirstDeletion(w, n, t, user, client);
    SecondDeletion(w2, n, t', user, client);
    IdsKept(w, Resume(n, t));
    hide After, AfterAll, Legal, Enabled, Ids, Remains;
    forall id | id in w1.history.access
      ensures id in w2.db.access ==> !IssuedTo(w2.db.access[id], user, client)
    {
      OldOnesStayAway(w1, es, user, client, id);
    }
  }

  /** A rotation between the two statements is such a case: it hands out an access token that is still accepted afterwards. */
  lemma RotationOutlivesTermination(db: DB, req: TokenRequest, current: Id, access: Id, refresh: Id, t: Time)
    requires current in db.refresh && t <= db.refresh[current].expires && db.refresh[current].user in db.users
    requires req.subject == Some(db.refresh[current].user) && req.client == db.refresh[current].client
    requires access !in db.access && refresh !in db.refresh
    ensures var user, client := db.refresh[current].user, db.refresh[current].client;
      var first := Step(db, Withdraw(Terminate(Some(user), client)), t);
      var stored := Step(first.db, Issue(Rotate(req, current, access, refresh)), t);
      && first.next.Continue? && stored.next.Continue?
      && var rotated := Step(stored.db, stored.next.call, t);
         var last := Step(rotated.db, first.next.call, t);
         && Issued(rotated) && last.next == Finish(Ok)
         && refresh !in last.db.refresh
         && access in last.db.access && last.db.access[access] == AccessRowFor(req, user, Some(refresh), t)
  {}
}
