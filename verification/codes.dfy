/**
  Authorization codes under every interleaving: each belongs to a stored auth
  request, at most one per request, and is good only while code and request live.
 */
module Codes {
  import opened Wrappers
  import opened Schema
  import opened Calls
  import opened Interleaving
  import opened Identities

  ghost predicate CodesOwned(db: DB) {
    && (forall code | code in db.codes :: db.codes[code].request in db.requests)
    && (forall a, b | a in db.codes && b in db.codes && db.codes[a].request == db.codes[b].request :: a == b)
  }

  /** Expiry times are creation times plus the lifetimes the source fixes. */
  ghost predicate Dated(db: DB, h: History) {
    && (forall code | code in db.codes :: code in h.saved && db.codes[code].expires == h.saved[code] + AUTH_CODE_TTL)
    && (forall id | id in db.requests ::
          id in h.requested && db.requests[id].expires == h.requested[id] + AUTH_REQUEST_TTL)
  }

  /** The request of every code ever saved is on record. */
  ghost predicate OwnersRecorded(h: History) {
    forall code | code in h.codes :: h.codes[code].request in h.requested
  }

  ghost predicate CodeInv(w: World) {
    Ids(w) && CodesOwned(w.db) && Dated(w.db, w.history) && OwnersRecorded(w.history)
  }

  ghost predicate SameCodes(db: DB, after: DB) {
    after.codes == db.codes && after.requests == db.requests
  }

  lemma IssueSparesCodes(db: DB, c: IssueCall, t: Time)
    ensures SameCodes(db, IssueStep(db, c, t).db)
  {}

  lemma WithdrawSparesCodes(db: DB, c: WithdrawCall, t: Time)
    ensures SameCodes(db, WithdrawStep(db, c, t).db)
  {}

  lemma CheckSparesCodes(db: DB, c: CheckCall, t: Time)
    ensures SameCodes(db, CheckStep(db, c, t).db)
  {}

  lemma AdminSparesCodes(db: DB, c: AdminCall, t: Time)
    requires !c.Purge?
    ensures SameCodes(db, AdminStep(db, c, t).db)
  {}

  lemma OtherCallsSpareCodes(db: DB, c: Call, t: Time)
    requires !c.Request? && !(c.Admin? && c.admin.Purge?)
    ensures SameCodes(db, Step(db, c, t).db)
  {
    hide IssueStep, WithdrawStep, CheckStep, AdminStep;
    match c
    case Issue(i) => IssueSparesCodes(db, i, t);
    case Withdraw(w) => WithdrawSparesCodes(db, w, t);
    case Check(q) => CheckSparesCodes(db, q, t);
    case Admin(a) => AdminSparesCodes(db, a, t);
  }

  /** Where the codes and auth requests in the tables after a statement come from. */
  ghost predicate RowsExplained(db: DB, c: Call, e: Effect, t: Time) {
    && (forall code | code in e.db.codes ::
          || (code in db.codes && e.db.codes[code] == db.codes[code])
          || (c.Request? && c.request.SaveCode? && code == c.request.code && e.next == Finish(Ok)
              && e.db.codes[code] == CodeRow(c.request.id, t + AUTH_CODE_TTL)
              && c.request.id in db.requests && !HasCode(db, c.request.id)))
    && (forall id | id in e.db.requests ::
          || (id in db.requests && e.db.requests[id].expires == db.requests[id].expires)
          || (c.Request? && c.request.NewRequest? && id == c.request.id && id !in db.requests && e.next != Finish(Failed)
              && e.db.requests[id].expires == t + AUTH_REQUEST_TTL))
    && (forall code | code in e.db.codes && e.db.codes[code].request in db.requests ::
          e.db.codes[code].request in e.db.requests)
  }

  lemma RequestRowsExplained(db: DB, c: RequestCall, t: Time)
    ensures RowsExplained(db, Request(c), RequestStep(db, c, t), t)
  {}

  lemma PurgeSparesOwners(db: DB, table: Table, cutoff: Time)
    requires CodesOwned(db)
    ensures var after := DeleteExpired(db, table, cutoff);
      && Extends(db.codes, after.codes, {})
      && Extends(db.requests, after.requests, {})
      && (forall code | code in after.codes :: after.codes[code].request in after.requests)
  {}

  lemma PurgeRowsExplained(db: DB, c: AdminCall, t: Time)
    requires c.Purge? && CodesOwned(db)
    ensures RowsExplained(db, Admin(c), AdminStep(db, c, t), t)
  {
    assert AdminStep(db, c, t).db == DeleteExpired(db, c.table, c.cutoff);
    hide AdminStep;
    PurgeSparesOwners(db, c.table, c.cutoff);
  }

  lemma AllRowsExplained(db: DB, c: Call, t: Time)
    requires CodesOwned(db)
    ensures RowsExplained(db, c, Step(db, c, t), t)
  {
    if c.Request? {
      RequestRowsExplained(db, c.request, t);
    } else if c.Admin? && c.admin.Purge? {
      PurgeRowsExplained(db, c.admin, t);
    } else {
      hide Step;
      OtherCallsSpareCodes(db, c, t);
    }
  }

  lemma OwnedStep(db: DB, c: Call, e: Effect, t: Time)
    requires CodesOwned(db) && RowsExplained(db, c, e, t)
    ensures CodesOwned(e.db)
  {}

  lemma DatedStep(db: DB, h: History, c: Call, e: Effect, t: Time)
    requires Dated(db, h) && OnRecord(db, h) && Unrecorded(c, h)
    requires RowsExplained(db, c, e, t)
    ensures Dated(e.db, Record(h, c, e, t))
  {
    if c.Request? && c.request.SaveCode? { assert c.request.code in Reserved(c); }
    if c.Request? && c.request.NewRequest? { assert c.request.id in Reserved(c); }
  }

  lemma OwnersRecordedStep(db: DB, h: History, c: Call, e: Effect, t: Time)
    requires OwnersRecorded(h) && OnRecord(db, h) && Unrecorded(c, h)
    requires RowsExplained(db, c, e, t)
    ensures OwnersRecorded(Record(h, c, e, t))
  {}

  lemma CodesKept(w: World, e: Event)
    requires CodeInv(w) && Enabled(w, e)
    ensures CodeInv(After(w, e))
  {
    IdsKept(w, e);
    if e.Resume? {
      hide Step;
      var c := w.pending[e.caller];
      ReservedUnstored(w, e.caller);
      AllRowsExplained(w.db, c, e.at);
      OwnedStep(w.db, c, Step(w.db, c, e.at), e.at);
      DatedStep(w.db, w.history, c, Step(w.db, c, e.at), e.at);
      OwnersRecordedStep(w.db, w.history, c, Step(w.db, c, e.at), e.at);
    }
  }

  lemma {:induction false} CodeInvAlways(w: World, es: seq<Event>)
    requires CodeInv(w) && Legal(w, es)
    ensures CodeInv(AfterAll(w, es))
    decreases |es|
  {
    if es != [] {
      CodesKept(w, es[0]);
      CodeInvAlways(After(w, es[0]), es[1..]);
    }
  }

  // --- main results ---

  /** In every reachable state each code has a stored request of its own. */
  lemma CodesHaveOneRequest(w0: World, es: seq<Event>)
    requires Init(w0) && Legal(w0, es)
    ensures CodesOwned(AfterAll(w0, es).db)
  {
    CodeInvAlways(w0, es);
  }

  lemma CodeInTime(w: World, n: nat, code: Id, t: Time)
    requires CodeInv(w) && Enabled(w, Resume(n, t)) && w.pending[n] == Request(ByCode(code))
    ensures n in After(w, Resume(n, t)).pending ==>
      && code in w.history.saved && t < w.history.saved[code] + AUTH_CODE_TTL + SECOND
      && code in w.history.codes
      && After(w, Resume(n, t)).pending[n] == Request(LoadRequest(w.history.codes[code].request))
  {
    hide Record;
  }

  lemma RequestInTime(w: World, id: Id, t: Time)
    requires CodeInv(w) && Step(w.db, Request(LoadRequest(id)), t).next != Finish(Failed)
    ensures id in w.history.requested && t < w.history.requested[id] + AUTH_REQUEST_TTL + SECOND
    ensures id in w.db.requests && Step(w.db, Request(LoadRequest(id)), t).next == Finish(RequestFound(id, w.db.requests[id]))
  {}

  /** `n` exchanges the code: its first statement runs at `t1`, then `es` happens, then its second runs at `t2` and finds the request. */
  ghost predicate ExchangeSucceeds(w: World, n: nat, code: Id, t1: Time, es: seq<Event>, t2: Time) {
    && Enabled(w, Resume(n, t1)) && w.pending[n] == Request(ByCode(code))
    && var w1 := After(w, Resume(n, t1));
       && n in w1.pending && Legal(w1, es)
       && var w2 := AfterAll(w1, es);
          n in w2.pending && w2.pending[n] == w1.pending[n] && Step(w2.db, w2.pending[n], t2).next != Finish(Failed)
  }

  /**
    An exchange that succeeds, whatever runs in between, took its code within the lifetime
    of the code and found the request of that code within the lifetime of the request, to
    the second CURRENT_TIMESTAMP is exact to.
   */
  lemma CodesExpire(w0: World, before: seq<Event>, n: nat, code: Id, t1: Time, es: seq<Event>, t2: Time)
    requires Init(w0) && Legal(w0, before) && ExchangeSucceeds(AfterAll(w0, before), n, code, t1, es, t2)
    ensures var w := AfterAll(w0, before);
      var w2 := AfterAll(After(w, Resume(n, t1)), es);
      && code in w.history.saved && t1 < w.history.saved[code] + AUTH_CODE_TTL + SECOND
      && code in w.history.codes
      && var id := w.history.codes[code].request;
         && id in w2.history.requested && t2 < w2.history.requested[id] + AUTH_REQUEST_TTL + SECOND
         && id in w2.db.requests
         && Step(w2.db, w2.pending[n], t2).next == Finish(RequestFound(id, w2.db.requests[id]))
  {
    CodeInvAlways(w0, before);
    hide Step, CodeInv, Init;
    var w := AfterAll(w0, before);
    var w1 := After(w, Resume(n, t1));
    CodeInTime(w, n, code, t1);
    CodesKept(w, Resume(n, t1));
    CodeInvAlways(w1, es);
    var w2, id := AfterAll(w1, es), w.history.codes[code].request;
    assert w2.pending[n] == Request(LoadRequest(id));
    RequestInTime(w2, id, t2);
  }

  lemma UnstoredIsRefused(db: DB, code: Id, request: Id, t: Time)
    requires code !in Keys(db) && request !in Keys(db)
    ensures Step(db, Request(ByCode(code)), t).next == Finish(Failed)
    ensures Step(db, Request(LoadRequest(request)), t).next == Finish(Failed)
  {}

  /** A code whose request is gone is gone too, and both are on record. */
  lemma OrphansAreGone(w: World, code: Id)
    requires CodeInv(w) && code in w.history.codes && w.history.codes[code].request !in w.db.requests
    ensures Gone(w, code) && Gone(w, w.history.codes[code].request)
  {}

  /** Once its request is gone, neither statement of a code exchange accepts the code again. */
  lemma CodesDieWithTheirRequest(w: World, es: seq<Event>, code: Id, t: Time)
    requires CodeInv(w) && Legal(w, es)
    requires code in w.history.codes
    requires w.history.codes[code].request !in w.db.requests
    ensures var db := AfterAll(w, es).db;
      && Step(db, Request(ByCode(code)), t).next == Finish(Failed)
      && Step(db, Request(LoadRequest(w.history.codes[code].request)), t).next == Finish(Failed)
  {
    OrphansAreGone(w, code);
    hide Step, Keys;
    GoneForever(w, es, code);
    GoneForever(w, es, w.history.codes[code].request);
    UnstoredIsRefused(AfterAll(w, es).db, code, w.history.codes[code].request, t);
  }
}
