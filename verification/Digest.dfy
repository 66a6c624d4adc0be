/** The digest job of one project: read the stamp, query twice, send, stamp again, with
    other transactions in between, those of the split scheduler included. Runs of the job
    do not overlap. */
module Digest {
  import opened Tables
  import opened Lifecycle
  import opened SplitScheduler

  /** A run whose stamp succeeded, with the tables as its two queries saw them. */
  datatype Report = Report(since: Time, rows: map<Id, Row>, users: map<Id, User>, stamp: Time)

  datatype Phase =
    | Resting
    | Started(since: Time)
    | Listed(since: Time, rows: map<Id, Row>)
    | Ready(since: Time, rows: map<Id, Row>, users: map<Id, User>)

  /** `ever` holds every row ever inserted; row identifiers are never drawn twice. */
  datatype Job = Job(project: string, world: World, ever: map<Id, Row>, phase: Phase, log: seq<Report>)

  datatype JobAct =
    | Meanwhile(a: Action)
    | Begin(back: Time)
    | QueryEnlisted
    | QueryGranted
    | Finish(at: Time)
    | GiveUp

  function DigestKey(project: string): Stamp {
    Stamp(project, DIGEST_KEY)
  }

  /** Rows of the project recorded after `since`. */
  function EnlistedSince(rows: map<Id, Row>, project: string, since: Time): set<Id> {
    set r | r in rows && rows[r].project == project && rows[r].createdAt > since
  }

  datatype GrantEvent = GrantEvent(user: Id, at: Time)

  /** Grants of the project recorded after `since`. */
  function GrantedSince(users: map<Id, User>, project: string, since: Time): set<GrantEvent> {
    set u | u in users && GrantedAfter(users[u], project, since) :: GrantEvent(u, users[u].grantedAt.value)
  }

  predicate GrantedAfter(u: User, project: string, since: Time) {
    u.project == project && u.grantedAt.Some? && u.grantedAt.value > since
  }

  /** Where the window of a run starts: at the stored stamp or, without one, at `back`, which
      is a day ago as the database compares it. */
  function SinceOf(db: Db, project: string, back: Time): Time {
    if DigestKey(project) in db.stamps then db.stamps[DigestKey(project)] else back
  }

  ghost predicate Allows(j: Job, a: JobAct) {
    match a
    case Meanwhile(other) => Can(j.world, other) && !(other.Other? && other.e.step == DigestSent(j.project))
    case Begin(_) => j.phase.Resting?
    case QueryEnlisted => j.phase.Started?
    case QueryGranted => j.phase.Listed?
    case Finish(_) => j.phase.Ready?
    case GiveUp => true
  }

  /** A run that finds nothing rests without stamping; so does one whose send failed. */
  ghost function Advance(cfg: Settings, j: Job, a: JobAct): Job
    requires Allows(j, a)
  {
    match a
    case Meanwhile(other) => var next := Do(cfg, j.world, other); j.(world := next, ever := j.ever + next.db.rows)
    case Begin(back) => j.(phase := Started(SinceOf(j.world.db, j.project, back)))
    case QueryEnlisted => j.(phase := Listed(j.phase.since, j.world.db.rows))
    case QueryGranted =>
      var users := j.world.db.users;
      if && EnlistedSince(j.phase.rows, j.project, j.phase.since) == {}
         && GrantedSince(users, j.project, j.phase.since) == {}
      then j.(phase := Resting)
      else j.(phase := Ready(j.phase.since, j.phase.rows, users))
    case Finish(at) =>
      j.(world := j.world.(db := UpsertStamp(j.world.db, DigestKey(j.project), at)),
         phase := Resting,
         log := j.log + [Report(j.phase.since, j.phase.rows, j.phase.users, at)])
    case GiveUp => j.(phase := Resting)
  }

  function RecordedAt(a: JobAct, before: Time): Time {
    match a
    case Meanwhile(other) => WrittenAt(other, before)
    case Finish(at) => at
    case _ => before
  }

  // ---------- invariant ----------

  ghost predicate Within<K(!new), V(!new)>(part: map<K, V>, whole: map<K, V>) {
    forall k :: k in part ==> k in whole && whole[k] == part[k]
  }

  ghost predicate RowsBy(rows: map<Id, Row>, at: Time) {
    forall r :: r in rows ==> rows[r].createdAt <= at
  }

  ghost predicate GrantsBy(users: map<Id, User>, at: Time) {
    forall u :: u in users && users[u].grantedAt.Some? ==> users[u].grantedAt.value <= at
  }

  ghost predicate ReportOk(j: Job, i: nat)
    requires i < |j.log|
  {
    && Within(j.log[i].rows, j.ever)
    && RowsBy(j.log[i].rows, j.log[i].stamp)
    && GrantsBy(j.log[i].users, j.log[i].stamp)
    && (i > 0 ==> j.log[i].since == j.log[i - 1].stamp <= j.log[i].stamp)
  }

  ghost predicate PhaseOk(j: Job, at: Time) {
    && (!j.phase.Resting? && j.log != [] ==> j.phase.since == j.log[|j.log| - 1].stamp)
    && (j.phase.Listed? || j.phase.Ready? ==> Within(j.phase.rows, j.ever) && RowsBy(j.phase.rows, at))
    && (j.phase.Ready? ==> GrantsBy(j.phase.users, at))
  }

  function StampOf(db: Db, project: string): Option<Time> {
    if DigestKey(project) in db.stamps then Some(db.stamps[DigestKey(project)]) else None
  }

  ghost predicate JobInv(j: Job, at: Time) {
    && SplitInv(j.world) && Audited(j.world.db, at)
    && Within(j.world.db.rows, j.ever) && j.ever.Keys <= j.world.issued
    && PhaseOk(j, at)
    && (forall i :: 0 <= i < |j.log| ==> ReportOk(j, i))
    && (j.log != [] ==> StampOf(j.world.db, j.project) == Some(j.log[|j.log| - 1].stamp))
  }

  lemma CommitFrame(w: World, at: Time, project: string)
    requires SplitInv(w) && w.pending.Some?
    ensures var after := CommitBatch(w.db, w.pending.value.project, w.pending.value.batch, at);
            && Within(after.rows, w.db.rows)
            && StampOf(after, project) == StampOf(w.db, project)
  {
    var p := w.pending.value;
    assert p.batch[0].userId in UsersOf(p.batch);
    CommitFacts(w.db, p.project, p.batch, at);
  }

  lemma StepFrame(cfg: Settings, db: Db, e: Event, project: string)
    requires Enabled(db, e) && !e.step.Tick? && e.step != DigestSent(project)
    ensures StampOf(Apply(cfg, db, e), project) == StampOf(db, project)
  {
  }

  /** What others do keeps the rows ever seen and the stamp of the job. */
  lemma MeanwhileFacts(cfg: Settings, j: Job, a: Action)
    requires Allows(j, Meanwhile(a)) && SplitInv(j.world)
    requires Within(j.world.db.rows, j.ever) && j.ever.Keys <= j.world.issued
    ensures var next := Advance(cfg, j, Meanwhile(a));
            && Within(next.world.db.rows, next.ever) && Within(j.ever, next.ever)
            && next.ever.Keys <= next.world.issued
            && StampOf(next.world.db, j.project) == StampOf(j.world.db, j.project)
  {
    DoKeepsSplitInv(cfg, j.world, a);
    match a
    case Other(e) =>
      OtherFrame(cfg, j.world.db, e);
      StepFrame(cfg, j.world.db, e, j.project);
    case Commit(_, at) => CommitFrame(j.world, at, j.project);
    case _ =>
  }

  lemma MeanwhileKeepsJob(cfg: Settings, j: Job, at: Time, a: Action)
    requires JobInv(j, at) && Allows(j, Meanwhile(a)) && at <= WrittenAt(a, at)
    ensures JobInv(Advance(cfg, j, Meanwhile(a)), WrittenAt(a, at))
  {
    var next := Advance(cfg, j, Meanwhile(a));
    MeanwhileFacts(cfg, j, a);
    DoKeepsSplitInv(cfg, j.world, a);
    DoKeepsAudit(cfg, j.world, at, a);
    forall i | 0 <= i < |next.log| ensures ReportOk(next, i) {
      assert ReportOk(j, i);
    }
  }

  lemma StampKeepsWorld(w: World, key: Stamp, at: Time)
    requires SplitInv(w)
    ensures SplitInv(w.(db := UpsertStamp(w.db, key, at)))
  {
  }

  lemma FinishKeepsJob(cfg: Settings, j: Job, at: Time, stamp: Time)
    requires JobInv(j, at) && Allows(j, Finish(stamp)) && at <= stamp
    ensures JobInv(Advance(cfg, j, Finish(stamp)), stamp)
  {
    var next := Advance(cfg, j, Finish(stamp));
    StampKeepsWorld(j.world, DigestKey(j.project), stamp);
    TouchedKeepsAudit(j.world.db, next.world.db, at, stamp);
    forall i | 0 <= i < |next.log| ensures ReportOk(next, i) {
      if i < |j.log| { assert ReportOk(j, i); }
    }
  }

  lemma QueryKeepsJob(cfg: Settings, j: Job, at: Time, a: JobAct)
    requires JobInv(j, at) && Allows(j, a) && !a.Meanwhile? && !a.Finish?
    ensures JobInv(Advance(cfg, j, a), at)
  {
    var next := Advance(cfg, j, a);
    forall i | 0 <= i < |next.log| ensures ReportOk(next, i) {
      assert ReportOk(j, i);
    }
    var users := j.world.db.users;
    forall u | u in users && users[u].grantedAt.Some? ensures users[u].grantedAt.value <= at {
      assert AuditOk(users[u], at);
    }
  }

  lemma DoKeepsJob(cfg: Settings, j: Job, at: Time, a: JobAct)
    requires JobInv(j, at) && Allows(j, a) && at <= RecordedAt(a, at)
    ensures JobInv(Advance(cfg, j, a), RecordedAt(a, at))
  {
    match a
    case Meanwhile(other) => MeanwhileKeepsJob(cfg, j, at, other);
    case Finish(stamp) => FinishKeepsJob(cfg, j, at, stamp);
    case _ => QueryKeepsJob(cfg, j, at, a);
  }

  // ---------- runs ----------

  ghost predicate Feasible(cfg: Settings, j: Job, at: Time, acts: seq<JobAct>)
    decreases |acts|
  {
    acts == [] ||
    (&& Allows(j, acts[0]) && at <= RecordedAt(acts[0], at)
     && Feasible(cfg, Advance(cfg, j, acts[0]), RecordedAt(acts[0], at), acts[1..]))
  }

  ghost function Reached(cfg: Settings, j: Job, at: Time, acts: seq<JobAct>): Job
    requires Feasible(cfg, j, at, acts)
    decreases |acts|
  {
    if acts == [] then j else Reached(cfg, Advance(cfg, j, acts[0]), RecordedAt(acts[0], at), acts[1..])
  }

  ghost function AtEnd(at: Time, acts: seq<JobAct>): Time
    decreases |acts|
  {
    if acts == [] then at else AtEnd(RecordedAt(acts[0], at), acts[1..])
  }

  lemma PrependAct(cfg: Settings, j: Job, at: Time, a: JobAct, rest: seq<JobAct>)
    requires Allows(j, a) && at <= RecordedAt(a, at) && Feasible(cfg, Advance(cfg, j, a), RecordedAt(a, at), rest)
    ensures Feasible(cfg, j, at, [a] + rest)
    ensures Reached(cfg, j, at, [a] + rest) == Reached(cfg, Advance(cfg, j, a), RecordedAt(a, at), rest)
  {
  }

  lemma {:induction false} RunKeepsJob(cfg: Settings, j: Job, at: Time, acts: seq<JobAct>)
    requires JobInv(j, at) && Feasible(cfg, j, at, acts)
    ensures JobInv(Reached(cfg, j, at, acts), AtEnd(at, acts))
    ensures Reached(cfg, j, at, acts).project == j.project
    decreases |acts|
  {
    if acts != [] {
      DoKeepsJob(cfg, j, at, acts[0]);
      RunKeepsJob(cfg, Advance(cfg, j, acts[0]), RecordedAt(acts[0], at), acts[1..]);
    }
  }

  /** Only a run that is finished stamps; one given up or failing leaves the next run to start
      where it started itself. */
  lemma {:induction false} OnlyFinishStamps(cfg: Settings, j: Job, at: Time, acts: seq<JobAct>)
    requires JobInv(j, at) && Feasible(cfg, j, at, acts) && forall i :: 0 <= i < |acts| ==> !acts[i].Finish?
    ensures Reached(cfg, j, at, acts).log == j.log
    ensures StampOf(Reached(cfg, j, at, acts).world.db, j.project) == StampOf(j.world.db, j.project)
    decreases |acts|
  {
    if acts != [] {
      DoKeepsJob(cfg, j, at, acts[0]);
      if acts[0].Meanwhile? { MeanwhileFacts(cfg, j, acts[0].a); }
      OnlyFinishStamps(cfg, Advance(cfg, j, acts[0]), RecordedAt(acts[0], at), acts[1..]);
    }
  }

  // ---------- what the reports say ----------

  lemma {:induction false} LaterStartsAfter(j: Job, at: Time, i: nat, k: nat)
    requires JobInv(j, at) && i < k < |j.log|
    ensures j.log[i].stamp <= j.log[k].since
    decreases k
  {
    assert ReportOk(j, k);
    if i < k - 1 {
      LaterStartsAfter(j, at, i, k - 1);
      assert ReportOk(j, k - 1);
    }
  }

  /** At most once: each stamped run starts where the one before was stamped, and no row and
      no grant is reported by two stamped runs. */
  lemma ReportedAtMostOnce(cfg: Settings, j: Job, at: Time, acts: seq<JobAct>, i: nat, k: nat)
    requires JobInv(j, at) && Feasible(cfg, j, at, acts) && i < k < |Reached(cfg, j, at, acts).log|
    ensures var log := Reached(cfg, j, at, acts).log;
            && log[k].since == log[k - 1].stamp
            && EnlistedSince(log[i].rows, j.project, log[i].since)
                 !! EnlistedSince(log[k].rows, j.project, log[k].since)
            && GrantedSince(log[i].users, j.project, log[i].since)
                 !! GrantedSince(log[k].users, j.project, log[k].since)
  {
    RunKeepsJob(cfg, j, at, acts);
    var end := Reached(cfg, j, at, acts);
    LaterStartsAfter(end, AtEnd(at, acts), i, k);
    assert ReportOk(end, i) && ReportOk(end, k);
    forall r | r in end.log[i].rows && r in end.log[k].rows
      ensures end.log[i].rows[r] == end.log[k].rows[r] == end.ever[r]
    {
    }
  }

  /** The exact gap: a row recorded after run n's window start and still there at the query
      of run n + 1 is missed by both exactly if it was inserted after the query of run n and
      recorded no later than the stamp of run n; then no later run reports it either. */
  lemma MissedExactly(cfg: Settings, j: Job, at: Time, acts: seq<JobAct>, n: nat, r: Id)
    requires JobInv(j, at) && Feasible(cfg, j, at, acts) && n + 1 < |Reached(cfg, j, at, acts).log|
    requires var log := Reached(cfg, j, at, acts).log;
             && r in log[n + 1].rows && log[n + 1].rows[r].project == j.project
             && log[n + 1].rows[r].createdAt > log[n].since
    ensures var log := Reached(cfg, j, at, acts).log;
            && ((&& r !in EnlistedSince(log[n].rows, j.project, log[n].since)
                 && r !in EnlistedSince(log[n + 1].rows, j.project, log[n + 1].since))
                <==> r !in log[n].rows && log[n + 1].rows[r].createdAt <= log[n].stamp)
            && (log[n + 1].rows[r].createdAt <= log[n].stamp ==>
                  forall k :: n < k < |log| ==> r !in EnlistedSince(log[k].rows, j.project, log[k].since))
  {
    RunKeepsJob(cfg, j, at, acts);
    var end := Reached(cfg, j, at, acts);
    assert ReportOk(end, n) && ReportOk(end, n + 1);
    forall k | n < k < |end.log| && end.log[n + 1].rows[r].createdAt <= end.log[n].stamp
      ensures r !in EnlistedSince(end.log[k].rows, j.project, end.log[k].since)
    {
      LaterStartsAfter(end, AtEnd(at, acts), n, k);
      assert ReportOk(end, k);
    }
  }

  /** The users show this very grant. */
  predicate Shows(users: map<Id, User>, project: string, g: GrantEvent) {
    g.user in users && users[g.user].project == project && users[g.user].grantedAt == Some(g.at)
  }

  /** The same gap for grants: one recorded after run n's window start and shown to the query
      of run n + 1 is missed by both exactly if run n was not shown it and it was recorded no
      later than the stamp of run n; then no later run reports it either. */
  lemma GrantMissedExactly(cfg: Settings, j: Job, at: Time, acts: seq<JobAct>, n: nat, g: GrantEvent)
    requires JobInv(j, at) && Feasible(cfg, j, at, acts) && n + 1 < |Reached(cfg, j, at, acts).log|
    requires var log := Reached(cfg, j, at, acts).log; Shows(log[n + 1].users, j.project, g) && g.at > log[n].since
    ensures var log := Reached(cfg, j, at, acts).log;
            && ((&& g !in GrantedSince(log[n].users, j.project, log[n].since)
                 && g !in GrantedSince(log[n + 1].users, j.project, log[n + 1].since))
                <==> !Shows(log[n].users, j.project, g) && g.at <= log[n].stamp)
            && (g.at <= log[n].stamp ==>
                  forall k :: n < k < |log| ==> g !in GrantedSince(log[k].users, j.project, log[k].since))
  {
    RunKeepsJob(cfg, j, at, acts);
    var end := Reached(cfg, j, at, acts);
    assert ReportOk(end, n) && ReportOk(end, n + 1);
    forall k | n <= k < |end.log|
      ensures g in GrantedSince(end.log[k].users, j.project, end.log[k].since)
         <==> Shows(end.log[k].users, j.project, g) && g.at > end.log[k].since
    {
      ReportedGrant(end.log[k].users, j.project, end.log[k].since, g);
    }
    forall k | n < k < |end.log| ensures end.log[n].stamp <= end.log[k].since {
      LaterStartsAfter(end, AtEnd(at, acts), n, k);
    }
  }

  lemma ReportedGrant(users: map<Id, User>, project: string, since: Time, g: GrantEvent)
    ensures g in GrantedSince(users, project, since) <==> Shows(users, project, g) && g.at > since
  {
    if Shows(users, project, g) && g.at > since {
      assert GrantedAfter(users[g.user], project, since);
      assert g == GrantEvent(g.user, users[g.user].grantedAt.value);
    }
  }
}
