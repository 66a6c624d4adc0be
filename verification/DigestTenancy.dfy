/** The digest of a project depends on that project alone: its mail, its window and its stamps,
    in one run and over all runs. */
module DigestTenancy {
  import opened Tables
  import opened Lifecycle
  import opened SplitScheduler
  import opened Tenancy
  import opened SplitTenancy
  import opened Digest
  import opened DigestProcess

  // ---------- one run ----------

  lemma PartRows(db: Db, project: string, since: Time, rows: seq<Id>)
    requires Schema(db)
    ensures RowsSince(db, project, since, rows) <==> RowsSince(Part(db, project), project, since, rows)
  {
  }

  lemma PartGrants(db: Db, project: string, since: Time, grants: seq<GrantEvent>)
    ensures GrantsSince(db, project, since, grants) <==> GrantsSince(Part(db, project), project, since, grants)
  {
  }

  lemma PartEnlistedAs(db: Db, project: string, since: Time, rows: seq<Id>, out: seq<EnlistedEntry>)
    requires Schema(db) && RowsSince(db, project, since, rows)
    ensures EnlistedAs(db, rows, out) <==> EnlistedAs(Part(db, project), rows, out)
  {
    forall i | 0 <= i < |rows| ensures rows[i] in db.rows && OwnerAgrees(db, db.rows[rows[i]])
                                       && db.rows[rows[i]].project == project
    {
      assert rows[i] in rows;
    }
  }

  lemma PartGrantedAs(db: Db, project: string, since: Time, grants: seq<GrantEvent>, out: seq<GrantedEntry>)
    requires GrantsSince(db, project, since, grants)
    ensures GrantedAs(db, grants, out) <==> GrantedAs(Part(db, project), grants, out)
  {
    forall i | 0 <= i < |grants| ensures grants[i].user in db.users && db.users[grants[i].user].project == project {
      assert grants[i] in grants;
    }
  }

  /** Whether there is a mail, what may stand in it, where its window starts and which stamp
      the run finds are those of the project alone. */
  lemma MailIsOwn(db: Db, project: string, since: Time, data: DigestData)
    requires Schema(db)
    ensures HadActivity(db, project, since) <==> HadActivity(Part(db, project), project, since)
    ensures Covers(db, project, since, data) <==> Covers(Part(db, project), project, since, data)
    ensures StampOf(db, project) == StampOf(Part(db, project), project)
  {
    var part := Part(db, project);
    forall rows: seq<Id> ensures RowsSince(db, project, since, rows) <==> RowsSince(part, project, since, rows) {
      PartRows(db, project, since, rows);
    }
    forall rows: seq<Id> | RowsSince(db, project, since, rows)
      ensures EnlistedAs(db, rows, data.enlisted) <==> EnlistedAs(part, rows, data.enlisted)
    {
      PartEnlistedAs(db, project, since, rows, data.enlisted);
    }
    forall grants: seq<GrantEvent>
      ensures GrantsSince(db, project, since, grants) <==> GrantsSince(part, project, since, grants)
    {
      PartGrants(db, project, since, grants);
    }
    forall grants: seq<GrantEvent> | GrantsSince(db, project, since, grants)
      ensures GrantedAs(db, grants, data.granted) <==> GrantedAs(part, grants, data.granted)
    {
      PartGrantedAs(db, project, since, grants, data.granted);
    }
    PartActivity(db, project, since);
  }

  lemma PartActivity(db: Db, project: string, since: Time)
    ensures HadActivity(db, project, since) <==> HadActivity(Part(db, project), project, since)
  {
    var part := Part(db, project);
    if r :| r in db.rows && db.rows[r].project == project && db.rows[r].createdAt > since { assert r in part.rows; }
    if u :| u in db.users && db.users[u].project == project && db.users[u].grantedAt.Some?
            && db.users[u].grantedAt.value > since {
      assert u in part.users;
    }
  }

  // ---------- the job over runs ----------

  function OwnRows(rows: map<Id, Row>, project: string): map<Id, Row> {
    map r | r in rows && rows[r].project == project :: rows[r]
  }

  function OwnUsers(users: map<Id, User>, project: string): map<Id, User> {
    map u | u in users && users[u].project == project :: users[u]
  }

  function OwnPhase(phase: Phase, project: string): Phase {
    match phase
    case Resting => Resting
    case Started(since) => Started(since)
    case Listed(since, rows) => Listed(since, OwnRows(rows, project))
    case Ready(since, rows, users) => Ready(since, OwnRows(rows, project), OwnUsers(users, project))
  }

  function OwnReport(report: Report, project: string): Report {
    Report(report.since, OwnRows(report.rows, project), OwnUsers(report.users, project), report.stamp)
  }

  /** `part` is the job as the project alone would see it. */
  ghost predicate IsOwnJob(part: Job, j: Job) {
    && part.project == j.project && IsPart(part.world, j.world, j.project)
    && part.phase == OwnPhase(j.phase, j.project)
    && |part.log| == |j.log| && forall i :: 0 <= i < |j.log| ==> part.log[i] == OwnReport(j.log[i], j.project)
  }

  /** The acts of the job itself, and those of others that act on its project. */
  predicate ActsOnJob(j: Job, a: JobAct) {
    a.Meanwhile? ==> Owns(j.world, a.a, j.project)
  }

  ghost function OwnJobActs(cfg: Settings, j: Job, at: Time, acts: seq<JobAct>): seq<JobAct>
    requires Feasible(cfg, j, at, acts)
    decreases |acts|
  {
    if acts == [] then []
    else
      var rest := OwnJobActs(cfg, Advance(cfg, j, acts[0]), RecordedAt(acts[0], at), acts[1..]);
      if ActsOnJob(j, acts[0]) then [acts[0]] + rest else rest
  }

  /** A report of the project is the same on its own rows and users. */
  lemma OwnReportSame(report: Report, project: string)
    ensures var own := OwnReport(report, project);
            && EnlistedSince(own.rows, project, own.since) == EnlistedSince(report.rows, project, report.since)
            && GrantedSince(own.users, project, own.since) == GrantedSince(report.users, project, report.since)
  {
    var own := OwnReport(report, project);
    forall g ensures g in GrantedSince(own.users, project, own.since) <==>
                     g in GrantedSince(report.users, project, report.since)
    {
      ReportedGrant(own.users, project, own.since, g);
      ReportedGrant(report.users, project, report.since, g);
    }
  }

  lemma OwnFinish(cfg: Settings, j: Job, part: Job, a: JobAct)
    requires IsOwnJob(part, j) && a.Finish? && Allows(j, a)
    ensures Allows(part, a) && IsOwnJob(Advance(cfg, part, a), Advance(cfg, j, a))
  {
    PartUpsertStamp(j.world.db, j.project, DigestKey(j.project), a.at);
  }

  lemma OwnAdvance(cfg: Settings, j: Job, part: Job, a: JobAct)
    requires SplitInv(j.world) && IsOwnJob(part, j) && Allows(j, a) && ActsOnJob(j, a)
    ensures Allows(part, a) && IsOwnJob(Advance(cfg, part, a), Advance(cfg, j, a))
  {
    match a
    case Meanwhile(other) => OwnAct(cfg, j.world, part.world, other, j.project);
    case QueryGranted =>
      OwnReportSame(Report(j.phase.since, j.phase.rows, j.world.db.users, 0), j.project);
    case Finish(_) => OwnFinish(cfg, j, part, a);
    case _ =>
  }

  lemma OthersAdvance(cfg: Settings, j: Job, part: Job, a: JobAct)
    requires SplitInv(j.world) && IsOwnJob(part, j) && Allows(j, a) && !ActsOnJob(j, a)
    ensures IsOwnJob(part, Advance(cfg, j, a))
  {
    OthersAct(cfg, j.world, part.world, a.a, j.project);
  }

  /** Over all runs, the windows, reports and stamps of the job are those of the run in which
      only the project's own transactions come in between. */
  lemma {:induction false} JobIsOwn(cfg: Settings, j: Job, part: Job, at: Time, from: Time, acts: seq<JobAct>)
    requires JobInv(j, at) && IsOwnJob(part, j) && Feasible(cfg, j, at, acts) && from <= at
    ensures Feasible(cfg, part, from, OwnJobActs(cfg, j, at, acts))
    ensures IsOwnJob(Reached(cfg, part, from, OwnJobActs(cfg, j, at, acts)), Reached(cfg, j, at, acts))
    decreases |acts|
  {
    if acts != [] {
      var a, next := acts[0], Advance(cfg, j, acts[0]);
      DoKeepsJob(cfg, j, at, a);
      if ActsOnJob(j, a) {
        OwnAdvance(cfg, j, part, a);
        JobIsOwn(cfg, next, Advance(cfg, part, a), RecordedAt(a, at), RecordedAt(a, from), acts[1..]);
        PrependAct(cfg, part, from, a, OwnJobActs(cfg, next, RecordedAt(a, at), acts[1..]));
      } else {
        OthersAdvance(cfg, j, part, a);
        JobIsOwn(cfg, next, part, RecordedAt(a, at), from, acts[1..]);
      }
    }
  }
}
