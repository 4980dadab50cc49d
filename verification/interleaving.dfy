/**
  Storage operations running side by side.

  A `World` is the tables, the calls in progress and the clock, together with
  what has happened so far. One event either starts a call or lets a call in
  progress run its next statement, so a sequence of events is any interleaving
  of any number of calls at statement granularity.
 */
module Interleaving {
  import opened Wrappers
  import opened Schema
  import opened Calls

  /** A refresh token `current` exchanged for `successor`. */
  datatype Redemption = Redemption(current: Id, successor: Id)

  /** Everything that ever happened, whatever has been deleted since. */
  datatype History = History(
    used: set<Id>,                 // ids drawn at random, inserted or not
    sessions: map<Id, SessionRow>, // rows ever inserted
    codes: map<Id, CodeRow>,
    access: map<Id, AccessRow>,
    refresh: map<Id, RefreshRow>,
    requested: map<Id, Time>,      // when each auth request was created
    saved: map<Id, Time>,          // when each code was saved
    family: map<Id, Id>,           // refresh token -> first refresh token of its grant
    redeemed: seq<Redemption>,     // successful rotations, oldest first
    returned: set<Id>,             // access tokens handed to a client
    loaded: set<RefreshRequest>)   // refresh tokens looked up for the library

  datatype World = World(db: DB, history: History, pending: map<nat, Call>, now: Time)

  datatype Event = Begin(caller: nat, call: Call) | Resume(caller: nat, at: Time)

  /** Ids are drawn at random, and a rotation presents a refresh token that was looked up before. */
  ghost predicate Enabled(w: World, e: Event) {
    match e
    case Begin(caller, call) =>
      && caller !in w.pending
      && Entry(call)
      && DrawsDistinct(call)
      && Reserved(call) !! w.history.used
      && (call.Issue? && call.issue.Rotate? ==> SpeaksFor(call.issue.req, call.issue.current, w.history.loaded))
    case Resume(caller, t) => caller in w.pending && w.now <= t
  }

  predicate Issued(e: Effect) { e.next.Finish? && e.next.reply.PairIssued? }

  function NextFamily(h: History, c: Call, e: Effect): map<Id, Id> {
    if !Issued(e) || !c.Issue? then h.family
    else if c.issue.PairRefresh? then h.family[c.issue.refresh := c.issue.refresh]
    else if c.issue.RotateTx? && c.issue.currentId in h.family
    then h.family[c.issue.refresh := h.family[c.issue.currentId]]
    else h.family
  }

  function NextRedeemed(h: History, c: Call, e: Effect): seq<Redemption> {
    if Issued(e) && c.Issue? && c.issue.RotateTx?
    then h.redeemed + [Redemption(c.issue.currentId, c.issue.refresh)] else h.redeemed
  }

  function Record(h: History, c: Call, e: Effect, t: Time): History {
    h.(sessions := h.sessions + e.db.sessions,
       codes := h.codes + e.db.codes,
       access := h.access + e.db.access,
       refresh := h.refresh + e.db.refresh,
       requested := if c.Request? && c.request.NewRequest? && e.next != Finish(Failed)
                    then h.requested[c.request.id := t] else h.requested,
       saved := if c.Request? && c.request.SaveCode? && e.next == Finish(Ok)
                then h.saved[c.request.code := t] else h.saved,
       family := NextFamily(h, c, e),
       redeemed := NextRedeemed(h, c, e),
       returned := if c.Issue? && e.next.Finish? && (e.next.reply.AccessIssued? || e.next.reply.PairIssued?)
                   then h.returned + {e.next.reply.access} else h.returned,
       loaded := if c.Issue? && e.next.Finish? && e.next.reply.RefreshFound?
                 then h.loaded + {e.next.reply.request} else h.loaded)
  }

  function After(w: World, e: Event): World
    requires Enabled(w, e)
  {
    match e
    case Begin(caller, call) =>
      w.(pending := w.pending[caller := call],
         history := w.history.(used := w.history.used + Reserved(call)))
    case Resume(caller, t) =>
      var c := w.pending[caller];
      var effect := Step(w.db, c, t);
      World(effect.db, Record(w.history, c, effect, t),
            if effect.next.Continue? then w.pending[caller := effect.next.call] else w.pending - {caller},
            t)
  }

  ghost predicate Legal(w: World, es: seq<Event>)
    decreases |es|
  {
    es == [] || (Enabled(w, es[0]) && Legal(After(w, es[0]), es[1..]))
  }

  ghost function AfterAll(w: World, es: seq<Event>): World
    requires Legal(w, es)
    decreases |es|
  {
    if es == [] then w else AfterAll(After(w, es[0]), es[1..])
  }

  /** A freshly migrated database: nothing stored, nothing running. */
  ghost predicate Init(w: World) {
    && w.db == EMPTY_DB
    && w.pending == map[]
    && w.history == History({}, map[], map[], map[], map[], map[], map[], map[], [], {}, {})
  }

  const NEW_WORLD :=
    World(EMPTY_DB, History({}, map[], map[], map[], map[], map[], map[], map[], [], {}, {}), map[], 0)

  // --- how one statement may change a table ---

  /** `after` holds rows of `before`, unchanged, and new rows only under `keys`. */
  ghost predicate Extends<V(!new)>(before: map<Id, V>, after: map<Id, V>, keys: set<Id>) {
    forall id | id in after :: if id in before then after[id] == before[id] else id in keys
  }

  function RefreshKey(c: Call): set<Id> {
    if c.Issue? && (c.issue.PairRefresh? || c.issue.RotateTx?) then {c.issue.refresh} else {}
  }

  function AccessKey(c: Call): set<Id> {
    if c.Issue? && (c.issue.IssueAccess? || c.issue.IssuePair? || c.issue.Rotate?) then {c.issue.access} else {}
  }

  function SessionKey(c: Call): set<Id> {
    if c.Check? && c.check.IssueSession? then {c.check.session} else {}
  }

  function CodeKey(c: Call): set<Id> {
    if c.Request? && c.request.SaveCode? then {c.request.code} else {}
  }

  function RequestKey(c: Call): set<Id> {
    if c.Request? && c.request.NewRequest? then {c.request.id} else {}
  }

  predicate Inserts(c: Call, id: Id) {
    id in RefreshKey(c) || id in AccessKey(c) || id in SessionKey(c) || id in CodeKey(c) || id in RequestKey(c)
  }

  function Keys(db: DB): set<Id> {
    db.sessions.Keys + db.requests.Keys + db.codes.Keys + db.access.Keys + db.refresh.Keys
  }

  ghost predicate RowsExtend(db: DB, c: Call, after: DB) {
    && Extends(db.refresh, after.refresh, RefreshKey(c))
    && Extends(db.access, after.access, AccessKey(c))
    && Extends(db.sessions, after.sessions, SessionKey(c))
    && Extends(db.codes, after.codes, CodeKey(c))
    && after.requests.Keys <= db.requests.Keys + RequestKey(c)
  }

  ghost predicate RowsShrink(db: DB, after: DB) {
    && Extends(db.refresh, after.refresh, {})
    && Extends(db.access, after.access, {})
    && Extends(db.sessions, after.sessions, {})
    && Extends(db.codes, after.codes, {})
    && after.requests.Keys <= db.requests.Keys
  }

  lemma IssueKeeps(db: DB, c: IssueCall, t: Time)
    requires Reserved(Issue(c)) !! Keys(db)
    ensures var after := IssueStep(db, c, t).db;
      && after == db.(access := after.access, refresh := after.refresh)
      && Extends(db.refresh, after.refresh, RefreshKey(Issue(c)))
      && Extends(db.access, after.access, AccessKey(Issue(c)))
  {}

  lemma WithdrawKeeps(db: DB, c: WithdrawCall, t: Time)
    ensures var after := WithdrawStep(db, c, t).db;
      && after == db.(access := after.access, refresh := after.refresh)
      && Extends(db.refresh, after.refresh, {})
      && Extends(db.access, after.access, {})
  {}

  lemma NewRequestKeeps(db: DB, c: RequestCall, t: Time)
    requires c.NewRequest?
    ensures var after := RequestStep(db, c, t).db;
      && after == db.(requests := after.requests)
      && after.requests.Keys <= db.requests.Keys + RequestKey(Request(c))
  {}

  lemma RequestKeeps(db: DB, c: RequestCall, t: Time)
    requires Reserved(Request(c)) !! Keys(db)
    ensures var after := RequestStep(db, c, t).db;
      && after == db.(requests := after.requests, codes := after.codes)
      && Extends(db.codes, after.codes, CodeKey(Request(c)))
      && after.requests.Keys <= db.requests.Keys + RequestKey(Request(c))
  {
    if c.NewRequest? { NewRequestKeeps(db, c, t); hide RequestStep; }
  }

  lemma CheckKeeps(db: DB, c: CheckCall, t: Time)
    requires Reserved(Check(c)) !! Keys(db)
    ensures var after := CheckStep(db, c, t).db;
      && after == db.(sessions := after.sessions)
      && Extends(db.sessions, after.sessions, SessionKey(Check(c)))
  {}

  lemma PurgeKeeps(db: DB, table: Table, cutoff: Time)
    ensures RowsShrink(db, DeleteExpired(db, table, cutoff))
  {}

  lemma RevokeSessionsKeeps(db: DB, user: UserId)
    ensures var after := RevokeSessions(db, user);
      && after == db.(sessions := after.sessions, access := after.access, refresh := after.refresh)
      && Extends(db.refresh, after.refresh, {})
      && Extends(db.access, after.access, {})
      && Extends(db.sessions, after.sessions, {})
  {}

  lemma DeleteUserKeeps(db: DB, user: UserId)
    ensures RowsShrink(db, DeleteUser(db, user))
  {}

  lemma DeleteClientKeeps(db: DB, app: string, t: Time)
    ensures var after := AdminStep(db, DeleteClient(app), t).db;
      && after == db.(clients := after.clients, access := after.access, refresh := after.refresh)
      && Extends(db.refresh, after.refresh, {})
      && Extends(db.access, after.access, {})
  {}

  lemma CredentialKeeps(db: DB, c: AdminCall, t: Time)
    requires c.SetPassword? || c.SetAdmin?
    ensures RowsShrink(db, AdminStep(db, c, t).db)
  {
    if c.user in db.users {
      var row := if c.SetPassword? then db.users[c.user].(passwordHash := c.hash) else db.users[c.user].(isAdmin := c.admin);
      RevokeSessionsKeeps(UpdateUser(db, c.user, row), c.user);
    }
  }

  lemma AdminKeeps(db: DB, c: AdminCall, t: Time)
    ensures RowsShrink(db, AdminStep(db, c, t).db)
  {
    hide DeleteExpired, RevokeSessions, DeleteUser;
    if c.Purge? {
      PurgeKeeps(db, c.table, c.cutoff);
    } else if c.SetPassword? || c.SetAdmin? {
      CredentialKeeps(db, c, t);
    } else if c.RemoveUser? {
      DeleteUserKeeps(db, c.user);
    } else if c.DeleteClient? {
      DeleteClientKeeps(db, c.app, t);
    }
  }

  /** No statement updates a row in place except in users and auth requests, and each inserts at most its reserved key. */
  lemma StepExtends(db: DB, c: Call, t: Time)
    requires Reserved(c) !! Keys(db)
    ensures RowsExtend(db, c, Step(db, c, t).db)
  {
    match c
    case Issue(i) => IssueKeeps(db, i, t);
    case Withdraw(w) => WithdrawKeeps(db, w, t);
    case Request(r) => RequestKeeps(db, r, t);
    case Check(q) => CheckKeeps(db, q, t);
    case Admin(a) => AdminKeeps(db, a, t);
  }

  /** What a statement inserts, its call no longer reserves. */
  lemma ReservedShrinks(db: DB, c: Call, t: Time)
    requires DrawsDistinct(c)
    ensures forall id | Inserts(c, id) :: id in Reserved(c)
    ensures var next := Step(db, c, t).next;
      next.Continue? ==>
        && DrawsDistinct(next.call)
        && forall id | id in Reserved(next.call) :: id in Reserved(c) && !Inserts(c, id)
  {}
}
