/** Projects share the tables and the process, but not their data: what a run does to one
    project is what that project's own steps do to it. */
module Tenancy {
  import opened Tables
  import opened Selection
  import opened Text
  import opened Lifecycle
  import opened AccessMachine

  /** The users, rows and stamps of one project. */
  function Part(db: Db, project: string): Db {
    Db(map u | u in db.users && db.users[u].project == project :: db.users[u],
       map r | r in db.rows && db.rows[r].project == project :: db.rows[r],
       map k | k in db.stamps && k.project == project :: db.stamps[k])
  }

  /** The project a step acts on; admin steps name a user or a row, which may not exist. */
  function OwnerOf(db: Db, s: Step): Option<string> {
    match s
    case SignUp(project, _, _, _, _) => Some(project)
    case Tick(project, _) => Some(project)
    case Grant(u) => if u in db.users then Some(db.users[u].project) else None
    case Revoke(u, _, _) => if u in db.users then Some(db.users[u].project) else None
    case DeleteRow(r) => if r in db.rows then Some(db.rows[r].project) else None
    case DigestSent(project) => Some(project)
  }

  /** The steps of a run that act on the given project, at their own times. */
  ghost function OwnSteps(cfg: Settings, db: Db, at: Time, run: seq<Event>, project: string): seq<Event>
    requires Valid(cfg, db, at, run)
    decreases |run|
  {
    if run == [] then []
    else
      var rest := OwnSteps(cfg, Apply(cfg, db, run[0]), run[0].at, run[1..], project);
      if OwnerOf(db, run[0].step) == Some(project) then [run[0]] + rest else rest
  }

  // ---------- restricting commutes with every statement ----------

  lemma PartInsertUser(db: Db, project: string, id: Id, user: User)
    requires id !in db.users
    ensures Part(InsertUser(db, id, user), project)
         == if user.project == project then InsertUser(Part(db, project), id, user) else Part(db, project)
  {
  }

  lemma PartInsertRow(db: Db, project: string, id: Id, row: Row)
    requires id !in db.rows
    ensures Part(InsertRow(db, id, row), project)
         == if row.project == project then InsertRow(Part(db, project), id, row) else Part(db, project)
  {
  }

  lemma PartGrantUsers(db: Db, project: string, ids: set<Id>, source: string, at: Time)
    ensures Part(GrantUsers(db, ids, source, at), project) == GrantUsers(Part(db, project), ids, source, at)
  {
  }

  lemma PartRevokeUser(db: Db, project: string, id: Id, reason: string, admin: string, at: Time)
    ensures Part(RevokeUser(db, id, reason, admin, at), project) == RevokeUser(Part(db, project), id, reason, admin, at)
  {
    assert Part(RevokeUser(db, id, reason, admin, at), project).users
        == RevokeUser(Part(db, project), id, reason, admin, at).users;
  }

  lemma PartDeleteRows(db: Db, project: string, ids: set<Id>)
    ensures Part(DeleteRows(db, ids), project) == DeleteRows(Part(db, project), ids)
  {
  }

  lemma PartDeleteRowsOf(db: Db, project: string, user: Id)
    ensures Part(DeleteRowsOf(db, user), project) == DeleteRowsOf(Part(db, project), user)
  {
  }

  lemma PartUpsertStamp(db: Db, project: string, key: Stamp, at: Time)
    ensures Part(UpsertStamp(db, key, at), project)
         == if key.project == project then UpsertStamp(Part(db, project), key, at) else Part(db, project)
  {
  }

  // ---------- statements aimed elsewhere do nothing ----------

  lemma GrantNobody(db: Db, ids: set<Id>, source: string, at: Time)
    requires ids !! db.users.Keys
    ensures GrantUsers(db, ids, source, at) == db
  {
  }

  lemma DeleteNothing(db: Db, ids: set<Id>)
    requires ids !! db.rows.Keys
    ensures DeleteRows(db, ids) == db
  {
  }

  lemma DeleteNothingOf(db: Db, user: Id)
    requires RowsOwned(db) && user !in db.users
    ensures DeleteRowsOf(db, user) == db
  {
  }

  lemma PartKeepsLogins(db: Db, project: string)
    requires Schema(db)
    ensures OneLoginEach(Part(db, project)) && OneRowEach(Part(db, project)) && RowsOwned(Part(db, project))
  {
  }

  lemma PartFinds(db: Db, project: string, email: string)
    requires Schema(db)
    ensures FindUser(Part(db, project), project, email) == FindUser(db, project, email)
  {
    PartKeepsLogins(db, project);
    var found := FindUser(db, project, email);
    if found.Some? {
      FindIs(Part(db, project), project, email, found.value);
    }
  }

  lemma PartHasRow(db: Db, project: string, u: Id)
    requires Schema(db) && u in db.users && db.users[u].project == project
    ensures HasRow(Part(db, project), u) == HasRow(db, u)
  {
    var part := Part(db, project);
    if r :| r in db.rows && db.rows[r].userId == u {
      assert OwnerAgrees(db, db.rows[r]);
      assert part.rows[r].userId == u;
    }
    if r :| r in part.rows && part.rows[r].userId == u { assert db.rows[r].userId == u; }
  }

  // ---------- steps ----------

  lemma SignUpInPart(cfg: Settings, db: Db, e: Event, project: string)
    requires Schema(db) && Enabled(db, e) && e.step.SignUp?
    ensures Enabled(Part(db, project), e)
    ensures Part(Apply(cfg, db, e), project)
         == if e.step.project == project then Apply(cfg, Part(db, project), e) else Part(db, project)
  {
    var s := e.step;
    var found := FindUser(db, s.project, s.email);
    PartFinds(db, s.project, s.email);
    match found
    case None =>
      var user := NewUser(s.project, s.email, s.profile, e.at);
      PartInsertUser(db, project, s.userId, user);
      PartInsertRow(InsertUser(db, s.userId, user), project, s.rowId, Row(s.project, s.userId, e.at, 0));
    case Some(u) =>
      PartHasRow(db, s.project, u);
      PartInsertRow(db, project, s.rowId, Row(s.project, u, e.at, 0));
  }

  lemma PartListing(db: Db, project: string, order: seq<Id>)
    requires Listing(db, project, order)
    ensures Listing(Part(db, project), project, order)
    ensures Entries(Part(db, project), order) == Entries(db, order)
  {
  }

  lemma CommitInPart(db: Db, project: string, batch: seq<Entry>, at: Time)
    requires exists u :: u in UsersOf(batch) && u in Part(db, project).users
    ensures Part(CommitBatch(db, project, batch, at), project) == CommitBatch(Part(db, project), project, batch, at)
  {
    var granted := GrantUsers(db, UsersOf(batch), "scheduler", at);
    PartGrantUsers(db, project, UsersOf(batch), "scheduler", at);
    PartDeleteRows(granted, project, RowsOf(batch));
    PartUpsertStamp(DeleteRows(granted, RowsOf(batch)), project, Stamp(project, WAITLIST_KEY), at);
  }

  lemma CommitOutsidePart(db: Db, owner: string, batch: seq<Entry>, at: Time, project: string)
    requires owner != project
    requires UsersOf(batch) !! Part(db, project).users.Keys && RowsOf(batch) !! Part(db, project).rows.Keys
    ensures Part(CommitBatch(db, owner, batch, at), project) == Part(db, project)
  {
    var granted := GrantUsers(db, UsersOf(batch), "scheduler", at);
    PartGrantUsers(db, project, UsersOf(batch), "scheduler", at);
    GrantNobody(Part(db, project), UsersOf(batch), "scheduler", at);
    PartDeleteRows(granted, project, RowsOf(batch));
    DeleteNothing(Part(db, project), RowsOf(batch));
    PartUpsertStamp(DeleteRows(granted, RowsOf(batch)), project, Stamp(owner, WAITLIST_KEY), at);
  }

  lemma BatchOwners(cfg: Settings, db: Db, project: string, order: seq<Id>, now: Time)
    requires Schema(db) && Listing(db, project, order)
    ensures forall u :: u in UsersOf(TickBatch(cfg, db, project, order, now)) ==>
                          u in db.users && db.users[u].project == project
    ensures forall r :: r in RowsOf(TickBatch(cfg, db, project, order, now)) ==>
                          r in db.rows && db.rows[r].project == project
  {
    BatchFacts(cfg, db, project, order, now);
    var batch := TickBatch(cfg, db, project, order, now);
    forall i | 0 <= i < |batch|
      ensures batch[i].userId in db.users && db.users[batch[i].userId].project == project
    {
      assert OwnerAgrees(db, db.rows[batch[i].id]);
    }
  }

  lemma OwnTick(cfg: Settings, db: Db, e: Event)
    requires Schema(db) && Enabled(db, e) && e.step.Tick?
    ensures Enabled(Part(db, e.step.project), e)
    ensures Part(Apply(cfg, db, e), e.step.project) == Apply(cfg, Part(db, e.step.project), e)
  {
    var project, order := e.step.project, e.step.order;
    PartListing(db, project, order);
    var batch := TickBatch(cfg, db, project, order, e.now);
    assert TickBatch(cfg, Part(db, project), project, order, e.now) == batch;
    if batch != [] {
      BatchOwners(cfg, db, project, order, e.now);
      assert batch[0].userId in UsersOf(batch);
      CommitInPart(db, project, batch, e.at);
    }
  }

  lemma OthersTick(cfg: Settings, db: Db, e: Event, project: string)
    requires Schema(db) && Enabled(db, e) && e.step.Tick? && e.step.project != project
    ensures Part(Apply(cfg, db, e), project) == Part(db, project)
  {
    BatchOwners(cfg, db, e.step.project, e.step.order, e.now);
    CommitOutsidePart(db, e.step.project, TickBatch(cfg, db, e.step.project, e.step.order, e.now), e.at, project);
  }

  /** Admin steps need no filtering: aimed at another project they find nothing. */
  lemma {:induction false} AdminInPart(cfg: Settings, db: Db, e: Event, project: string)
    requires Schema(db) && (e.step.Grant? || e.step.Revoke? || e.step.DeleteRow?)
    ensures Part(Apply(cfg, db, e), project) == Apply(cfg, Part(db, project), e)
  {
    match e.step
    case Grant(user) =>
      PartKeepsLogins(db, project);
      PartDeleteRowsOf(db, project, user);
      PartGrantUsers(DeleteRowsOf(db, user), project, {user}, "admin", e.at);
      if user !in Part(db, project).users {
        DeleteNothingOf(Part(db, project), user);
        GrantNobody(Part(db, project), {user}, "admin", e.at);
      }
    case Revoke(user, reason, admin) => PartRevokeUser(db, project, user, reason, admin, e.at);
    case DeleteRow(row) => PartDeleteRows(db, project, {row});
  }

  lemma AdminMisses(cfg: Settings, db: Db, e: Event, project: string)
    requires Schema(db) && (e.step.Grant? || e.step.Revoke? || e.step.DeleteRow?)
    requires OwnerOf(db, e.step) != Some(project)
    ensures Apply(cfg, Part(db, project), e) == Part(db, project)
  {
  }

  lemma OwnStep(cfg: Settings, db: Db, e: Event, project: string)
    requires Schema(db) && Enabled(db, e) && OwnerOf(db, e.step) == Some(project)
    ensures Enabled(Part(db, project), e)
    ensures Part(Apply(cfg, db, e), project) == Apply(cfg, Part(db, project), e)
  {
    match e.step
    case SignUp(_, _, _, _, _) => SignUpInPart(cfg, db, e, project);
    case Tick(_, _) => OwnTick(cfg, db, e);
    case DigestSent(_) => PartUpsertStamp(db, project, Stamp(project, DIGEST_KEY), e.at);
    case _ => AdminInPart(cfg, db, e, project);
  }

  lemma OthersStep(cfg: Settings, db: Db, e: Event, project: string)
    requires Schema(db) && Enabled(db, e) && OwnerOf(db, e.step) != Some(project)
    ensures Part(Apply(cfg, db, e), project) == Part(db, project)
  {
    match e.step
    case SignUp(_, _, _, _, _) => SignUpInPart(cfg, db, e, project);
    case Tick(_, _) => OthersTick(cfg, db, e, project);
    case DigestSent(owner) => PartUpsertStamp(db, project, Stamp(owner, DIGEST_KEY), e.at);
    case _ =>
      AdminInPart(cfg, db, e, project);
      AdminMisses(cfg, db, e, project);
  }

  /** Tenant non-interference: the final users, rows and stamps of a project are those of
      the run that keeps only the project's own steps. */
  lemma {:induction false} RunRespectsTenants(cfg: Settings, db: Db, at: Time, run: seq<Event>, project: string)
    requires Schema(db) && Valid(cfg, db, at, run)
    ensures Valid(cfg, Part(db, project), at, OwnSteps(cfg, db, at, run, project))
    ensures Run(cfg, Part(db, project), at, OwnSteps(cfg, db, at, run, project)) == Part(Run(cfg, db, at, run), project)
    decreases |run|
  {
    if run != [] {
      var e, next := run[0], Apply(cfg, db, run[0]);
      StepKeepsSchema(cfg, db, e);
      RunRespectsTenants(cfg, next, e.at, run[1..], project);
      var rest := OwnSteps(cfg, next, e.at, run[1..], project);
      if OwnerOf(db, e.step) == Some(project) {
        OwnStep(cfg, db, e, project);
        assert ([e] + rest)[1..] == rest;
      } else {
        OthersStep(cfg, db, e, project);
        StartLater(cfg, Part(db, project), at, e.at, rest);
      }
    }
  }

  /** A run may be taken to start earlier. */
  lemma StartLater(cfg: Settings, db: Db, at: Time, later: Time, run: seq<Event>)
    requires at <= later && Valid(cfg, db, later, run)
    ensures Valid(cfg, db, at, run) && Run(cfg, db, at, run) == Run(cfg, db, later, run)
  {
  }
}
