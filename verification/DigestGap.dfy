/** The gap of the digest is real: a sign-up between the query and the stamp of a run is
    reported neither by that run nor by the next. All times are recorded ones, `res` being
    the storage resolution. */
module DigestGap {
  import opened Tables
  import opened Lifecycle
  import opened Clock
  import opened SplitScheduler
  import opened Digest
  import opened DigestProcess

  const CFG := Settings(25, DAY, map[])

  function Join(email: string, person: Profile, user: Id, row: Id, at: Time): Action {
    Other(Event(at, at, SignUp("p", email, person, user, row)))
  }

  /** The times an act writes or compares are recorded ones. */
  ghost predicate RecordedAct(res: Time, a: JobAct)
    requires res > 0
  {
    match a
    case Meanwhile(Other(e)) => e.at == Trunc(res, e.now)
    case Begin(back) => Aligned(res, back)
    case Finish(at) => Aligned(res, at)
    case _ => true
  }

  ghost predicate AllRecorded(res: Time, acts: seq<JobAct>)
    requires res > 0
  {
    forall i :: 0 <= i < |acts| ==> RecordedAct(res, acts[i])
  }

  lemma TimesAreRecorded(res: Time)
    requires res > 0
    ensures Aligned(res, 0) && Aligned(res, 2 * res) && Aligned(res, 3 * res)
  {
    Multiple(res, 0, 0);
    Multiple(res, 2, 0);
    Multiple(res, 3, 0);
  }

  function StartJob(res: Time, person: Profile): Job {
    var rows := map["r" := Row("p", "u", res, 0)];
    var db := Db(map["u" := NewUser("p", "u@x", person, 0)], rows, map[]);
    Job("p", World(db, {"u", "r"}, None), rows, Resting, [])
  }

  /** The job after the first run has queried. */
  function Queried(res: Time, person: Profile): Job {
    var j := StartJob(res, person);
    j.(phase := Ready(0, j.world.db.rows, j.world.db.users))
  }

  lemma StartIsSound(res: Time, person: Profile)
    requires res > 0
    ensures JobInv(StartJob(res, person), res)
  {
  }

  lemma FirstQueries(res: Time, person: Profile, rest: seq<JobAct>)
    requires res > 0
    requires Feasible(CFG, Queried(res, person), res, rest)
    ensures Feasible(CFG, StartJob(res, person), res, [Begin(0)] + ([QueryEnlisted] + ([QueryGranted] + rest)))
    ensures Reached(CFG, StartJob(res, person), res, [Begin(0)] + ([QueryEnlisted] + ([QueryGranted] + rest)))
         == Reached(CFG, Queried(res, person), res, rest)
  {
    var j := StartJob(res, person);
    var j1 := Advance(CFG, j, Begin(0));
    assert j1.phase == Started(0);
    var j2 := Advance(CFG, j1, QueryEnlisted);
    assert "r" in EnlistedSince(j.world.db.rows, "p", 0);
    assert Advance(CFG, j2, QueryGranted) == Queried(res, person);
    PrependAct(CFG, j2, res, QueryGranted, rest);
    PrependAct(CFG, j1, res, QueryEnlisted, [QueryGranted] + rest);
    PrependAct(CFG, j, res, Begin(0), [QueryEnlisted] + ([QueryGranted] + rest));
  }

  ghost predicate Newcomer(w: World, email: string, user: Id, row: Id) {
    && (forall u :: u in w.db.users ==> w.db.users[u].email != email)
    && user !in w.issued && row !in w.issued
  }

  /** A sign-up of a login nobody has adds one user and one row. */
  lemma JoinAdds(j: Job, email: string, person: Profile, user: Id, row: Id, at: Time)
    requires Newcomer(j.world, email, user, row)
    requires j.world.db.users.Keys + j.world.db.rows.Keys <= j.world.issued
    ensures var a := Meanwhile(Join(email, person, user, row, at));
            var joined := InsertUser(j.world.db, user, NewUser("p", email, person, at));
            var db := InsertRow(joined, row, Row("p", user, at, 0));
            && Allows(j, a)
            && Advance(CFG, j, a) == j.(world := World(db, j.world.issued + {user, row}, j.world.pending),
                                        ever := j.ever + db.rows)
  {
  }

  /** One more sign-up, then a whole run that reports it. */
  lemma NextRun(res: Time, j: Job, person: Profile) returns (acts: seq<JobAct>)
    requires res > 0
    requires j.project == "p" && j.phase.Resting? && StampOf(j.world.db, "p") == Some(2 * res)
    requires Newcomer(j.world, "s@x", "w", "s")
    requires j.world.db.users.Keys + j.world.db.rows.Keys <= j.world.issued
    ensures Feasible(CFG, j, 2 * res, acts) && AllRecorded(res, acts)
    ensures var log := Reached(CFG, j, 2 * res, acts).log;
            && |log| == |j.log| + 1 && log[..|j.log|] == j.log
            && log[|j.log|].since == 2 * res && Within(j.world.db.rows, log[|j.log|].rows)
  {
    var later := Meanwhile(Join("s@x", person, "w", "s", 3 * res));
    JoinAdds(j, "s@x", person, "w", "s", 3 * res);
    var next := Advance(CFG, j, later);
    var run := [Begin(3 * res), QueryEnlisted, QueryGranted, Finish(3 * res)];
    assert "s" in EnlistedSince(next.world.db.rows, "p", 2 * res);
    UninterruptedRun(CFG, next, 3 * res, 3 * res, 3 * res);
    PrependAct(CFG, j, 2 * res, later, run);
    TimesAreRecorded(res);
    acts := [later] + run;
  }

  ghost predicate Missed(log: seq<Report>, r: Id) {
    && |log| == 2 && r in log[1].rows
    && log[1].rows[r].project == "p" && log[1].rows[r].createdAt > log[0].since
    && r !in EnlistedSince(log[0].rows, "p", log[0].since)
    && r !in EnlistedSince(log[1].rows, "p", log[1].since)
  }

  lemma StampedJob(res: Time, person: Profile) returns (stamped: Job)
    requires res > 0
    ensures var join := Meanwhile(Join("q@x", person, "v", "q", 2 * res));
            && Allows(Queried(res, person), join) && Allows(Advance(CFG, Queried(res, person), join), Finish(2 * res))
            && Advance(CFG, Advance(CFG, Queried(res, person), join), Finish(2 * res)) == stamped
    ensures stamped.project == "p" && stamped.phase == Resting && StampOf(stamped.world.db, "p") == Some(2 * res)
    ensures var db := StartJob(res, person).world.db;
            stamped.log == [Report(0, db.rows, db.users, 2 * res)]
    ensures stamped.world.db.rows == StartJob(res, person).world.db.rows["q" := Row("p", "v", 2 * res, 0)]
    ensures Newcomer(stamped.world, "s@x", "w", "s")
    ensures stamped.world.db.users.Keys + stamped.world.db.rows.Keys <= stamped.world.issued
  {
    var j, join := Queried(res, person), Meanwhile(Join("q@x", person, "v", "q", 2 * res));
    JoinAdds(j, "q@x", person, "v", "q", 2 * res);
    var joined := Advance(CFG, j, join);
    assert joined.world.db.users.Keys == {"u", "v"} && joined.phase == j.phase;
    stamped := Advance(CFG, joined, Finish(2 * res));
  }

  lemma SecondRun(res: Time, person: Profile) returns (acts: seq<JobAct>)
    requires res > 0
    ensures Feasible(CFG, Queried(res, person), res, acts) && AllRecorded(res, acts)
    ensures Missed(Reached(CFG, Queried(res, person), res, acts).log, "q")
  {
    var j := Queried(res, person);
    var join := Meanwhile(Join("q@x", person, "v", "q", 2 * res));
    var stamped := StampedJob(res, person);
    var rest := NextRun(res, stamped, person);
    PrependAct(CFG, Advance(CFG, j, join), 2 * res, Finish(2 * res), rest);
    PrependAct(CFG, j, res, join, [Finish(2 * res)] + rest);
    TimesAreRecorded(res);
    acts := [join] + ([Finish(2 * res)] + rest);
    var log := Reached(CFG, stamped, 2 * res, rest).log;
    assert log[0] == log[..1][0] == stamped.log[0];
  }

  lemma GapCanHappen(res: Time, person: Profile) returns (acts: seq<JobAct>)
    requires res > 0
    ensures JobInv(StartJob(res, person), res) && Feasible(CFG, StartJob(res, person), res, acts)
    ensures AllRecorded(res, acts)
    ensures Missed(Reached(CFG, StartJob(res, person), res, acts).log, "q")
  {
    StartIsSound(res, person);
    var rest := SecondRun(res, person);
    FirstQueries(res, person, rest);
    TimesAreRecorded(res);
    acts := [Begin(0)] + ([QueryEnlisted] + ([QueryGranted] + rest));
  }
}
