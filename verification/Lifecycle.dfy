/** Sign-up, scheduler batch, grant, revoke and row deletion as steps on the tables,
    and what every run of such steps keeps. */
module Lifecycle {
  import opened Tables
  import opened Selection
  import opened Text

  // ---------- settings ----------

  datatype Override = Override(batch: Option<nat>, window: Option<Time>, disabled: bool)

  datatype Settings = Settings(batch: nat, window: Time, projects: map<string, Override>)

  datatype Policy = Policy(batch: nat, window: Time, disabled: bool)

  /** A project that is not configured is never handed to the scheduler. */
  function PolicyOf(cfg: Settings, project: string): Policy {
    if project !in cfg.projects then Policy(cfg.batch, cfg.window, true)
    else
      var o := cfg.projects[project];
      Policy(if o.batch.Some? then o.batch.value else cfg.batch,
             if o.window.Some? then o.window.value else cfg.window,
             o.disabled)
  }

  // ---------- steps ----------

  /** Identifiers drawn by the service and the order in which the database lists rows of
      equal weighted time are part of the step. */
  datatype Step =
    | SignUp(project: string, email: string, profile: Profile, userId: Id, rowId: Id)
    | Tick(project: string, order: seq<Id>)
    | Grant(userId: Id)
    | Revoke(userId: Id, reason: string, admin: string)
    | DeleteRow(rowId: Id)
    | DigestSent(project: string)

  /** `now` is the clock, `at` the value the database records for it. */
  datatype Event = Event(now: Time, at: Time, step: Step)

  function SignUpDb(db: Db, found: Option<Id>, waiting: bool, at: Time, s: Step): Db
    requires s.SignUp?
    requires found.Some? ==> found.value in db.users
  {
    match found
    case None =>
      var created := InsertUser(db, s.userId, NewUser(s.project, s.email, s.profile, at));
      InsertRow(created, s.rowId, Row(s.project, s.userId, at, 0))
    case Some(u) =>
      if db.users[u].hasAccess || waiting then db
      else InsertRow(db, s.rowId, Row(s.project, u, at, 0))
  }

  function GrantDb(db: Db, user: Id, at: Time): Db {
    if user in db.users then GrantUsers(DeleteRowsOf(db, user), {user}, "admin", at) else db
  }

  function RevokeDb(db: Db, user: Id, reason: string, admin: string, at: Time): Db {
    if Blank(reason) then db else RevokeUser(db, user, reason, admin, at)
  }

  /** ORDER BY weighted_created_at of one project's rows; ties in any order. */
  ghost predicate Listing(db: Db, project: string, order: seq<Id>) {
    && (forall i :: 0 <= i < |order| ==> order[i] in db.rows && db.rows[order[i]].project == project)
    && (forall r :: r in db.rows && db.rows[r].project == project ==> r in order)
    && (forall i, j :: 0 <= i < j < |order| ==> order[i] != order[j])
    && (forall i, j :: 0 <= i < j < |order| ==> Weighted(db.rows[order[i]]) <= Weighted(db.rows[order[j]]))
  }

  function EntryOf(db: Db, r: Id): Entry
    requires r in db.rows
  {
    Entry(r, db.rows[r].userId, Weighted(db.rows[r]))
  }

  function Entries(db: Db, order: seq<Id>): (es: seq<Entry>)
    requires forall i :: 0 <= i < |order| ==> order[i] in db.rows
    ensures |es| == |order| && forall i :: 0 <= i < |es| ==> es[i] == EntryOf(db, order[i])
  {
    seq(|order|, i requires 0 <= i < |order| => EntryOf(db, order[i]))
  }

  /** The cooldown test of the scheduler. */
  predicate Due(cfg: Settings, db: Db, project: string, now: Time) {
    && !PolicyOf(cfg, project).disabled
    && (Stamp(project, WAITLIST_KEY) in db.stamps ==>
          now - db.stamps[Stamp(project, WAITLIST_KEY)] >= PolicyOf(cfg, project).window)
  }

  /** The entries one scheduler run promotes; none inside the cooldown. */
  ghost function TickBatch(cfg: Settings, db: Db, project: string, order: seq<Id>, now: Time): seq<Entry>
    requires Listing(db, project, order)
  {
    var policy := PolicyOf(cfg, project);
    if Due(cfg, db, project, now)
    then RipeOnly(Take(Entries(db, order), policy.batch), policy.window, now)
    else []
  }

  function UsersOf(batch: seq<Entry>): set<Id> {
    set i | 0 <= i < |batch| :: batch[i].userId
  }

  function RowsOf(batch: seq<Entry>): set<Id> {
    set i | 0 <= i < |batch| :: batch[i].id
  }

  /** The batch transaction: grant, delete, stamp. It is rolled back when none of the
      users exists. */
  function CommitBatch(db: Db, project: string, batch: seq<Entry>, at: Time): Db {
    if UsersOf(batch) !! db.users.Keys then db
    else UpsertStamp(DeleteRows(GrantUsers(db, UsersOf(batch), "scheduler", at), RowsOf(batch)),
                     Stamp(project, WAITLIST_KEY), at)
  }

  ghost function TickDb(cfg: Settings, db: Db, project: string, order: seq<Id>, now: Time, at: Time): Db
    requires Listing(db, project, order)
  {
    var batch := TickBatch(cfg, db, project, order, now);
    if batch == [] then db else CommitBatch(db, project, batch, at)
  }

  ghost predicate Enabled(db: Db, e: Event) {
    match e.step
    case SignUp(_, _, _, user, row) => user !in db.users && row !in db.rows
    case Tick(project, order) => Listing(db, project, order)
    case _ => true
  }

  ghost function Apply(cfg: Settings, db: Db, e: Event): Db
    requires Enabled(db, e)
  {
    match e.step
    case SignUp(project, email, _, _, _) =>
      var found := FindUser(db, project, email);
      SignUpDb(db, found, found.Some? && HasRow(db, found.value), e.at, e.step)
    case Tick(project, order) => TickDb(cfg, db, project, order, e.now, e.at)
    case Grant(user) => GrantDb(db, user, e.at)
    case Revoke(user, reason, admin) => RevokeDb(db, user, reason, admin, e.at)
    case DeleteRow(row) => DeleteRows(db, {row})
    case DigestSent(project) => UpsertStamp(db, Stamp(project, DIGEST_KEY), e.at)
  }

  // ---------- runs ----------

  ghost predicate Valid(cfg: Settings, db: Db, at: Time, run: seq<Event>)
    decreases |run|
  {
    run == [] ||
    (at <= run[0].at && Enabled(db, run[0]) && Valid(cfg, Apply(cfg, db, run[0]), run[0].at, run[1..]))
  }

  ghost function Run(cfg: Settings, db: Db, at: Time, run: seq<Event>): Db
    requires Valid(cfg, db, at, run)
    decreases |run|
  {
    if run == [] then db else Run(cfg, Apply(cfg, db, run[0]), run[0].at, run[1..])
  }

  function EndTime(at: Time, run: seq<Event>): Time {
    if run == [] then at else run[|run| - 1].at
  }

  const EMPTY := Db(map[], map[], map[])

  // ---------- invariants ----------

  const SOURCES := {"scheduler", "admin"}

  predicate Between(low: Time, t: Option<Time>, high: Time) {
    t.Some? ==> low <= t.value <= high
  }

  /** The audit columns of one user agree with has_access and with each other. */
  predicate AuditOk(u: User, at: Time) {
    && (u.hasAccess <==> u.grantedAt.Some? && u.revokedAt.None?)
    && (u.grantedBy.Some? <==> u.grantedAt.Some?)
    && (u.grantedBy.Some? ==> u.grantedBy.value in SOURCES)
    && (u.revokedAt.Some? <==> u.revokeReason.Some?)
    && (u.revokedAt.Some? <==> u.revokedBy.Some?)
    && (u.revokeReason.Some? ==> !Blank(u.revokeReason.value))
    && u.createdAt <= at
    && Between(u.createdAt, u.grantedAt, at)
    && Between(u.createdAt, u.revokedAt, at)
    && (u.grantedAt.Some? && u.revokedAt.Some? ==> u.grantedAt.value <= u.revokedAt.value)
  }

  ghost predicate Audited(db: Db, at: Time) {
    && (forall u :: u in db.users ==> AuditOk(db.users[u], at))
    && (forall r :: r in db.rows ==> db.rows[r].createdAt <= at)
    && (forall k :: k in db.stamps ==> db.stamps[k] <= at)
  }

  /** Nobody both waits and has access. */
  ghost predicate Disjoint(db: Db) {
    forall r :: r in db.rows && db.rows[r].userId in db.users ==> !db.users[db.rows[r].userId].hasAccess
  }

  ghost predicate Inv(db: Db, at: Time) {
    Schema(db) && Disjoint(db) && Audited(db, at)
  }

  lemma BatchFacts(cfg: Settings, db: Db, project: string, order: seq<Id>, now: Time)
    requires Listing(db, project, order)
    ensures var batch := TickBatch(cfg, db, project, order, now);
            && |batch| <= PolicyOf(cfg, project).batch
            && forall i :: 0 <= i < |batch| ==>
                             && batch[i].id in db.rows && batch[i] == EntryOf(db, batch[i].id)
                             && db.rows[batch[i].id].project == project
                             && Ripe(batch[i], PolicyOf(cfg, project).window, now)
  {
    var policy := PolicyOf(cfg, project);
    var head := Take(Entries(db, order), policy.batch);
    var batch := TickBatch(cfg, db, project, order, now);
    if Due(cfg, db, project, now) {
      RipeMember(head, |head|, policy.window, now, Entry([], [], 0));
      forall i | 0 <= i < |batch|
        ensures batch[i] in head && Ripe(batch[i], policy.window, now)
      {
        RipeMember(head, |head|, policy.window, now, batch[i]);
      }
    }
  }

  /** What a batch leaves behind, column by column. */
  ghost predicate Promoted(db: Db, after: Db, batch: seq<Entry>, at: Time) {
    && after.users.Keys == db.users.Keys
    && (forall u :: u in db.users ==>
          after.users[u] == if u in UsersOf(batch) then Granted(db.users[u], "scheduler", at) else db.users[u])
    && after.rows.Keys == db.rows.Keys - RowsOf(batch)
    && (forall r :: r in after.rows ==> after.rows[r] == db.rows[r])
  }

  lemma CommitFacts(db: Db, project: string, batch: seq<Entry>, at: Time)
    requires exists u :: u in UsersOf(batch) && u in db.users
    ensures Promoted(db, CommitBatch(db, project, batch, at), batch, at)
    ensures CommitBatch(db, project, batch, at).stamps == db.stamps[Stamp(project, WAITLIST_KEY) := at]
  {
  }

  /** The entries were read off these very rows. */
  ghost predicate Current(db: Db, batch: seq<Entry>) {
    forall i :: 0 <= i < |batch| ==> batch[i].id in db.rows && batch[i] == EntryOf(db, batch[i].id)
  }

  /** A scheduler step with a batch grants exactly the users of its own rows and removes
      exactly those rows. */
  lemma TickCommits(cfg: Settings, db: Db, e: Event)
    requires RowsOwned(db) && Enabled(db, e) && e.step.Tick?
    requires TickBatch(cfg, db, e.step.project, e.step.order, e.now) != []
    ensures var batch := TickBatch(cfg, db, e.step.project, e.step.order, e.now);
            && Current(db, batch)
            && Promoted(db, Apply(cfg, db, e), batch, e.at)
            && Apply(cfg, db, e).stamps == db.stamps[Stamp(e.step.project, WAITLIST_KEY) := e.at]
  {
    var batch := TickBatch(cfg, db, e.step.project, e.step.order, e.now);
    BatchFacts(cfg, db, e.step.project, e.step.order, e.now);
    assert batch[0].userId in UsersOf(batch) && OwnerAgrees(db, db.rows[batch[0].id]);
    CommitFacts(db, e.step.project, batch, e.at);
  }

  /** No user appears, disappears or changes login, and no row appears or changes. */
  ghost predicate Shrunk(db: Db, after: Db) {
    && after.users.Keys == db.users.Keys
    && (forall u :: u in db.users ==> SameLogin(db.users[u], after.users[u]))
    && after.rows.Keys <= db.rows.Keys
    && (forall r :: r in after.rows ==> after.rows[r] == db.rows[r])
  }

  lemma ShrunkKeepsSchema(db: Db, after: Db)
    requires Schema(db) && Shrunk(db, after)
    ensures Schema(after)
  {
  }

  lemma SignUpKeepsSchema(db: Db, found: Option<Id>, waiting: bool, at: Time, s: Step)
    requires Schema(db) && s.SignUp? && s.userId !in db.users && s.rowId !in db.rows
    requires found == FindUser(db, s.project, s.email) && waiting == (found.Some? && HasRow(db, found.value))
    ensures Schema(SignUpDb(db, found, waiting, at, s))
  {
    var after := SignUpDb(db, found, waiting, at, s);
    forall r | r in after.rows ensures OwnerAgrees(after, after.rows[r]) {
      if r in db.rows { assert OwnerAgrees(db, db.rows[r]); }
    }
    forall r, q | r in after.rows && q in after.rows && after.rows[r].userId == after.rows[q].userId ensures r == q {
      if r in db.rows { assert OwnerAgrees(db, db.rows[r]); }
      if q in db.rows { assert OwnerAgrees(db, db.rows[q]); }
    }
    forall u, v | u in after.users && v in after.users && SameLogin(after.users[u], after.users[v]) ensures u == v {
      if u in db.users && v in db.users { assert SameLogin(db.users[u], db.users[v]); }
    }
  }

  /** Every user, row and stamp is the old one, or one just written. */
  ghost predicate Touched(db: Db, after: Db, next: Time) {
    && (forall u :: u in after.users ==>
          || (u in db.users && WrittenUser(db.users[u], after.users[u], next))
          || (exists p, m, f :: after.users[u] == NewUser(p, m, f, next)))
    && (forall r :: r in after.rows ==>
          (r in db.rows && after.rows[r] == db.rows[r]) || after.rows[r].createdAt == next)
    && (forall k :: k in after.stamps ==>
          (k in db.stamps && after.stamps[k] == db.stamps[k]) || after.stamps[k] == next)
  }

  ghost predicate WrittenUser(u: User, v: User, next: Time) {
    || v == u
    || (exists source :: source in SOURCES && v == Granted(u, source, next))
    || (exists reason, admin :: !Blank(reason) && v == Revoked(u, reason, admin, next))
  }

  lemma WrittenIsOk(u: User, v: User, at: Time, next: Time)
    requires AuditOk(u, at) && at <= next && WrittenUser(u, v, next)
    ensures AuditOk(v, next)
  {
  }

  lemma TouchedKeepsAudit(db: Db, after: Db, at: Time, next: Time)
    requires Audited(db, at) && at <= next && Touched(db, after, next)
    ensures Audited(after, next)
  {
    forall u | u in after.users ensures AuditOk(after.users[u], next) {
      if u in db.users && WrittenUser(db.users[u], after.users[u], next) {
        WrittenIsOk(db.users[u], after.users[u], at, next);
      }
    }
  }

  lemma CommitShrinks(db: Db, project: string, batch: seq<Entry>, at: Time)
    ensures Shrunk(db, CommitBatch(db, project, batch, at))
  {
  }

  lemma StepShrinks(cfg: Settings, db: Db, e: Event)
    requires Enabled(db, e) && !e.step.SignUp?
    ensures Shrunk(db, Apply(cfg, db, e))
  {
    match e.step
    case Tick(project, order) => CommitShrinks(db, project, TickBatch(cfg, db, project, order, e.now), e.at);
    case Grant(user) => assert Shrunk(db, GrantDb(db, user, e.at));
    case Revoke(user, reason, admin) => assert Shrunk(db, RevokeDb(db, user, reason, admin, e.at));
    case DeleteRow(row) => assert Shrunk(db, DeleteRows(db, {row}));
    case DigestSent(_) =>
  }

  lemma StepKeepsSchema(cfg: Settings, db: Db, e: Event)
    requires Schema(db) && Enabled(db, e)
    ensures Schema(Apply(cfg, db, e))
  {
    if e.step.SignUp? {
      var found := FindUser(db, e.step.project, e.step.email);
      SignUpKeepsSchema(db, found, found.Some? && HasRow(db, found.value), e.at, e.step);
    } else {
      StepShrinks(cfg, db, e);
      ShrunkKeepsSchema(db, Apply(cfg, db, e));
    }
  }

  lemma CommitTouches(db: Db, project: string, batch: seq<Entry>, at: Time)
    ensures Touched(db, CommitBatch(db, project, batch, at), at)
  {
  }

  lemma StepTouches(cfg: Settings, db: Db, e: Event)
    requires Enabled(db, e)
    ensures Touched(db, Apply(cfg, db, e), e.at)
  {
    match e.step
    case SignUp(p, m, f, _, _) =>
    case Tick(project, order) => CommitTouches(db, project, TickBatch(cfg, db, project, order, e.now), e.at);
    case Grant(_) =>
    case Revoke(_, _, _) =>
    case DeleteRow(_) =>
    case DigestSent(_) =>
  }

  /** A batch still matching the rows leaves no row to the users it grants. */
  lemma FreshBatchKeepsDisjoint(db: Db, project: string, batch: seq<Entry>, at: Time)
    requires OneRowEach(db) && Disjoint(db)
    requires forall i :: 0 <= i < |batch| ==> batch[i].id in db.rows && db.rows[batch[i].id].userId == batch[i].userId
    ensures Disjoint(CommitBatch(db, project, batch, at))
  {
    if u :| u in UsersOf(batch) && u in db.users {
      CommitFacts(db, project, batch, at);
      var after := CommitBatch(db, project, batch, at);
      forall r | r in after.rows && after.rows[r].userId in after.users
        ensures !after.users[after.rows[r].userId].hasAccess
      {
        forall i | 0 <= i < |batch| ensures batch[i].userId != db.rows[r].userId {
          assert batch[i].id in RowsOf(batch);
        }
      }
    }
  }

  lemma TickKeepsDisjoint(cfg: Settings, db: Db, e: Event)
    requires Schema(db) && Disjoint(db) && Enabled(db, e) && e.step.Tick?
    ensures Disjoint(Apply(cfg, db, e))
  {
    BatchFacts(cfg, db, e.step.project, e.step.order, e.now);
    FreshBatchKeepsDisjoint(db, e.step.project, TickBatch(cfg, db, e.step.project, e.step.order, e.now), e.at);
  }

  lemma OtherKeepsDisjoint(cfg: Settings, db: Db, e: Event)
    requires Schema(db) && Disjoint(db) && Enabled(db, e) && !e.step.Tick?
    ensures Disjoint(Apply(cfg, db, e))
  {
    var after := Apply(cfg, db, e);
    forall r | r in after.rows && after.rows[r].userId in after.users
      ensures !after.users[after.rows[r].userId].hasAccess
    {
      if r in db.rows { assert OwnerAgrees(db, db.rows[r]); }
    }
  }

  lemma {:induction false} StepKeepsInv(cfg: Settings, db: Db, at: Time, e: Event)
    requires Inv(db, at) && at <= e.at && Enabled(db, e)
    ensures Inv(Apply(cfg, db, e), e.at)
  {
    StepKeepsSchema(cfg, db, e);
    StepTouches(cfg, db, e);
    TouchedKeepsAudit(db, Apply(cfg, db, e), at, e.at);
    if e.step.Tick? { TickKeepsDisjoint(cfg, db, e); } else { OtherKeepsDisjoint(cfg, db, e); }
  }

  /** In every reachable state the schema holds, nobody with access waits, and every
      user's audit columns agree. */
  lemma {:induction false} RunKeepsInv(cfg: Settings, db: Db, at: Time, run: seq<Event>)
    requires Inv(db, at) && Valid(cfg, db, at, run)
    ensures Inv(Run(cfg, db, at, run), EndTime(at, run))
    decreases |run|
  {
    if run != [] {
      StepKeepsInv(cfg, db, at, run[0]);
      RunKeepsInv(cfg, Apply(cfg, db, run[0]), run[0].at, run[1..]);
    }
  }

  /** Starting from the tables the migrations create. */
  lemma ReachableInv(cfg: Settings, at: Time, run: seq<Event>)
    requires Valid(cfg, EMPTY, at, run)
    ensures Inv(Run(cfg, EMPTY, at, run), EndTime(at, run))
  {
    RunKeepsInv(cfg, EMPTY, at, run);
  }
}
