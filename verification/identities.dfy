/**
  What random ids give every interleaving: a key is inserted at most once, rows
  other than users and auth requests never change, and a row that is gone stays gone.
 */
module Identities {
  import opened Wrappers
  import opened Schema
  import opened Calls
  import opened Interleaving

  ghost predicate Recorded(h: History, id: Id) {
    id in h.sessions || id in h.requested || id in h.codes || id in h.access || id in h.refresh
  }

  /** Every stored row is on record, under the same key and with the same contents. */
  ghost predicate OnRecord(db: DB, h: History) {
    && Extends(h.refresh, db.refresh, {})
    && Extends(h.access, db.access, {})
    && Extends(h.sessions, db.sessions, {})
    && Extends(h.codes, db.codes, {})
    && db.requests.Keys <= h.requested.Keys
  }

  /** A call's reserved ids are on record nowhere and shared with no other call. */
  ghost predicate ReservedApart(pending: map<nat, Call>, h: History) {
    && (forall id | Recorded(h, id) :: id in h.used)
    && (forall n | n in pending :: DrawsDistinct(pending[n]) && Unrecorded(pending[n], h))
    && (forall n, id | n in pending && id in Reserved(pending[n]) :: id in h.used)
    && (forall n, m, id | n in pending && m in pending && id in Reserved(pending[n]) && id in Reserved(pending[m]) :: n == m)
  }

  ghost predicate Unrecorded(c: Call, h: History) {
    forall id | id in Reserved(c) :: !Recorded(h, id)
  }

  /** No two tables ever used the same key. */
  ghost predicate OneTable(h: History) {
    && (forall id | id in h.sessions :: id !in h.requested && id !in h.codes && id !in h.access && id !in h.refresh)
    && (forall id | id in h.requested :: id !in h.codes && id !in h.access && id !in h.refresh)
    && (forall id | id in h.codes :: id !in h.access && id !in h.refresh)
    && (forall id | id in h.access :: id !in h.refresh)
  }

  ghost predicate Ids(w: World) {
    OnRecord(w.db, w.history) && OneTable(w.history) && ReservedApart(w.pending, w.history)
  }

  lemma UnionKeeps<V(!new)>(ever: map<Id, V>, before: map<Id, V>, after: map<Id, V>, keys: set<Id>)
    requires Extends(ever, before, {}) && Extends(before, after, keys)
    requires forall id | id in keys :: id !in ever
    ensures Extends(ever + after, after, {}) && Extends(ever + after, ever, {})
    ensures forall id | id in ever + after :: id in ever || id in keys
  {}

  /** The record of auth requests grows like the records of the other tables. */
  lemma RequestsRecorded(db: DB, h: History, c: Call, t: Time)
    requires OnRecord(db, h) && Unrecorded(c, h)
    ensures var e := Step(db, c, t);
      var h' := Record(h, c, e, t);
      && e.db.requests.Keys <= h'.requested.Keys
      && Extends(h'.requested, h.requested, {})
      && (forall id | id in h'.requested :: id in h.requested || id in RequestKey(c))
  {
    StepExtends(db, c, t);
  }

  /** The record of a step holds the new tables, and everything it held before. */
  ghost predicate RecordExtends(h: History, h': History, c: Call) {
    && (forall id | id in h'.refresh :: id in h.refresh || id in RefreshKey(c))
    && (forall id | id in h'.access :: id in h.access || id in AccessKey(c))
    && (forall id | id in h'.sessions :: id in h.sessions || id in SessionKey(c))
    && (forall id | id in h'.codes :: id in h.codes || id in CodeKey(c))
    && (forall id | id in h'.requested :: id in h.requested || id in RequestKey(c))
    && h'.used == h.used
    && Extends(h'.refresh, h.refresh, {})
    && Extends(h'.access, h.access, {})
    && Extends(h'.sessions, h.sessions, {})
    && Extends(h'.codes, h.codes, {})
    && Extends(h'.requested, h.requested, {})
  }

  lemma RecordGrows(db: DB, h: History, c: Call, t: Time)
    requires OnRecord(db, h) && Unrecorded(c, h)
    ensures var e := Step(db, c, t);
      var h' := Record(h, c, e, t);
      OnRecord(e.db, h') && RecordExtends(h, h', c)
  {
    hide Step;
    var after := Step(db, c, t).db;
    StepExtends(db, c, t);
    RequestsRecorded(db, h, c, t);
    UnionKeeps(h.refresh, db.refresh, after.refresh, RefreshKey(c));
    UnionKeeps(h.access, db.access, after.access, AccessKey(c));
    UnionKeeps(h.sessions, db.sessions, after.sessions, SessionKey(c));
    UnionKeeps(h.codes, db.codes, after.codes, CodeKey(c));
  }

  /** The key a statement inserts was on record in no table. */
  lemma OneTableKept(h: History, h': History, c: Call)
    requires OneTable(h) && RecordExtends(h, h', c) && forall id | Inserts(c, id) :: !Recorded(h, id)
    ensures OneTable(h')
  {
    hide Extends;
    forall id | Recorded(h', id)
      ensures id in h'.sessions ==> id !in h'.requested && id !in h'.codes && id !in h'.access && id !in h'.refresh
      ensures id in h'.requested ==> id !in h'.codes && id !in h'.access && id !in h'.refresh
      ensures id in h'.codes ==> id !in h'.access && id !in h'.refresh
      ensures id in h'.access ==> id !in h'.refresh
    {
      assert Inserts(c, id) || Recorded(h, id);
    }
  }

  /** The call that ran keeps only ids it has not inserted; the others are not affected. */
  lemma ReservedApartKept(w: World, n: nat, h': History, next: Outcome)
    requires ReservedApart(w.pending, w.history) && n in w.pending
    requires RecordExtends(w.history, h', w.pending[n])
    requires forall id | Inserts(w.pending[n], id) :: id in Reserved(w.pending[n])
    requires next.Continue? ==>
      && DrawsDistinct(next.call)
      && forall id | id in Reserved(next.call) :: id in Reserved(w.pending[n]) && !Inserts(w.pending[n], id)
    ensures ReservedApart(if next.Continue? then w.pending[n := next.call] else w.pending - {n}, h')
  {
    assert forall id | Recorded(h', id) :: Recorded(w.history, id) || Inserts(w.pending[n], id);
  }

  lemma IdsKept(w: World, e: Event)
    requires Ids(w) && Enabled(w, e)
    ensures Ids(After(w, e))
  {
    if e.Resume? {
      hide Step, Record, ReservedApart, OneTable, OnRecord;
      var c := w.pending[e.caller];
      ReservedUnstored(w, e.caller);
      RecordGrows(w.db, w.history, c, e.at);
      ReservedShrinks(w.db, c, e.at);
      OneTableKept(w.history, After(w, e).history, c);
      ReservedApartKept(w, e.caller, After(w, e).history, Step(w.db, c, e.at).next);
    }
  }

  lemma ReservedUnstored(w: World, n: nat)
    requires Ids(w) && n in w.pending
    ensures DrawsDistinct(w.pending[n]) && Unrecorded(w.pending[n], w.history)
    ensures forall id | id in Reserved(w.pending[n]) :: id !in Keys(w.db) && id !in w.history.refresh
  {}

  /** On record, and no longer stored. */
  ghost predicate Gone(w: World, id: Id) {
    Recorded(w.history, id) && id !in Keys(w.db)
  }

  lemma GoneStep(w: World, e: Event, id: Id)
    requires Ids(w) && Enabled(w, e) && Gone(w, id)
    ensures Gone(After(w, e), id)
  {
    if e.Resume? {
      hide Step, Record;
      ReservedUnstored(w, e.caller);
      RecordGrows(w.db, w.history, w.pending[e.caller], e.at);
      StepExtends(w.db, w.pending[e.caller], e.at);
      ReservedShrinks(w.db, w.pending[e.caller], e.at);
    }
  }

  /** A row that is gone never comes back, whatever runs. */
  lemma {:induction false} GoneForever(w: World, es: seq<Event>, id: Id)
    requires Ids(w) && Legal(w, es) && Gone(w, id)
    ensures Gone(AfterAll(w, es), id)
    decreases |es|
  {
    if es != [] {
      IdsKept(w, es[0]);
      GoneStep(w, es[0], id);
      GoneForever(After(w, es[0]), es[1..], id);
    }
  }
}
