/** The starvation bound over runs: exactly with which windows every run keeps it. */
module StarvationBound {
  import opened Tables
  import opened Selection
  import opened Lifecycle
  import opened Clock
  import opened Scheduler

  /** A row ripe from `start` on is gone once its project has had ceil(rank / batch)
      scheduler runs outside the cooldown. */
  ghost predicate BoundMet(cfg: Settings, res: Time, db: Db, at: Time, run: seq<Event>, row: Id, start: Time)
    requires res > 0 && row in db.rows
  {
    var content := db.rows[row];
    var policy := PolicyOf(cfg, content.project);
    && Schema(db) && Valid(cfg, db, at, run) && Recorded(res, start, run)
    && policy.batch >= 1 && Ripe(EntryOf(db, row), policy.window, start)
    && DueTicks(cfg, db, at, run, content.project)
       >= (Rank(db, content.project, Weighted(content)) + policy.batch - 1) / policy.batch ==>
      !Holds(Run(cfg, db, at, run), row, content)
  }

  // ---------- a shorter window ----------

  /** One row, ripe and alone, and the tables after somebody else has signed up. */
  ghost predicate Alone(db: Db) {
    && Schema(db) && db.users.Keys == {"u"} && db.users["u"].project == "p" && db.users["u"].email == "a@b"
    && db.rows == map["r" := Row("p", "u", 0, 0)] && db.stamps == map[]
  }

  ghost predicate Joined(db: Db) {
    && Schema(db) && db.stamps == map[]
    && db.rows == map["r" := Row("p", "u", 0, 0), "q" := Row("p", "v", 0, 0)]
  }

  lemma JoinStep(cfg: Settings, db: Db, now: Time, person: Profile) returns (e: Event)
    requires Alone(db)
    ensures e.now == now && e.at == 0 && e.step.SignUp? && Enabled(db, e) && Joined(Apply(cfg, db, e))
  {
    e := Event(now, 0, SignUp("p", "c@d", person, "v", "q"));
    assert FindUser(db, "p", "c@d") == None;
    StepKeepsSchema(cfg, db, e);
  }

  lemma JoinedListing(db: Db)
    requires Joined(db)
    ensures Listing(db, "p", ["q", "r"])
  {
  }

  lemma OvertakeStep(cfg: Settings, db: Db, window: Time, now: Time) returns (e: Event)
    requires Joined(db) && PolicyOf(cfg, "p") == Policy(1, window, false) && now >= window
    ensures e.now == now && e.at == 0 && e.step.Tick? && e.step.project == "p" && Enabled(db, e)
    ensures Due(cfg, db, "p", now) && Apply(cfg, db, e).rows == map["r" := Row("p", "u", 0, 0)]
  {
    e := Event(now, 0, Tick("p", ["q", "r"]));
    JoinedListing(db);
    FirstIsBatch(cfg, db, "p", window, ["q", "r"], now);
    TickTakesOne(cfg, db, e, "q");
    assert Apply(cfg, db, e).rows.Keys == {"r"};
  }

  lemma TwoSteps(cfg: Settings, db: Db, e1: Event, e2: Event)
    requires Enabled(db, e1) && Enabled(Apply(cfg, db, e1), e2) && e1.at == e2.at == 0
    requires e1.step.SignUp? && e2.step.Tick? && e2.step.project == "p" && Due(cfg, Apply(cfg, db, e1), "p", e2.now)
    ensures Valid(cfg, db, 0, [e1, e2])
    ensures Run(cfg, db, 0, [e1, e2]) == Apply(cfg, Apply(cfg, db, e1), e2)
    ensures DueTicks(cfg, db, 0, [e1, e2], "p") == 1
  {
    var next := Apply(cfg, db, e1);
    assert [e1, e2][1..] == [e2] && [e2][1..] == [];
    assert Valid(cfg, Apply(cfg, next, e2), 0, []);
    assert Valid(cfg, next, 0, [e2]);
    assert Run(cfg, next, 0, [e2]) == Run(cfg, Apply(cfg, next, e2), 0, []) == Apply(cfg, next, e2);
    assert DueTicks(cfg, Apply(cfg, next, e2), 0, [], "p") == 0;
    assert DueTicks(cfg, next, 0, [e2], "p") == 1;
  }

  lemma RankAlone(db: Db)
    requires Alone(db)
    ensures Rank(db, "p", 0) == 1
  {
    assert AheadOf(db, "p", 0) == {"r"};
  }

  lemma OvertakeRun(cfg: Settings, db: Db, window: Time, now: Time, person: Profile) returns (run: seq<Event>)
    requires Alone(db) && PolicyOf(cfg, "p") == Policy(1, window, false) && now >= window
    ensures Valid(cfg, db, 0, run) && DueTicks(cfg, db, 0, run, "p") == 1
    ensures Holds(Run(cfg, db, 0, run), "r", Row("p", "u", 0, 0))
    ensures forall i :: 0 <= i < |run| ==> run[i].now == now && run[i].at == 0
  {
    var e1 := JoinStep(cfg, db, now, person);
    var e2 := OvertakeStep(cfg, Apply(cfg, db, e1), window, now);
    TwoSteps(cfg, db, e1, e2);
    run := [e1, e2];
  }

  /** With a window shorter than the storage resolution a row ripe and first in line can be
      overtaken: somebody signs up afterwards, is recorded at the same time, is listed first
      and takes the only place of the batch. */
  lemma Overtaken(res: Time, window: Time, person: Profile)
    returns (cfg: Settings, db: Db, run: seq<Event>, start: Time)
    requires res > 0 && window < res
    ensures PolicyOf(cfg, "p") == Policy(1, window, false) && Alone(db) && Disjoint(db) && Audited(db, 0)
    ensures Valid(cfg, db, 0, run) && Recorded(res, start, run) && Ripe(EntryOf(db, "r"), window, start)
    ensures Rank(db, "p", 0) == 1 && DueTicks(cfg, db, 0, run, "p") == 1
    ensures Holds(Run(cfg, db, 0, run), "r", db.rows["r"])
  {
    cfg := Settings(1, window, map["p" := Override(None, None, false)]);
    db := Db(map["u" := NewUser("p", "a@b", person, 0)], map["r" := Row("p", "u", 0, 0)], map[]);
    start := if window > 0 then window else 0;
    Multiple(res, 0, start);
    RankAlone(db);
    run := OvertakeRun(cfg, db, window, start, person);
  }

  /** Every run from every state of the schema keeps the bound exactly when the window is at
      least the storage resolution. */
  lemma StarvationBoundExactly(res: Time, window: Time)
    requires res > 0
    ensures window >= res <==>
              forall cfg, db: Db, at, run, row, start ::
                row in db.rows && PolicyOf(cfg, db.rows[row].project).window == window ==>
                  BoundMet(cfg, res, db, at, run, row, start)
  {
    if window >= res {
      forall cfg, db: Db, at, run, row, start | row in db.rows && PolicyOf(cfg, db.rows[row].project).window == window
        ensures BoundMet(cfg, res, db, at, run, row, start)
      {
        BoundHolds(cfg, res, db, at, run, row, start);
      }
    } else {
      var cfg, db, run, start := Overtaken(res, window, Profile("", "", None));
      BoundBroken(cfg, res, db, run, start);
    }
  }

  lemma BoundHolds(cfg: Settings, res: Time, db: Db, at: Time, run: seq<Event>, row: Id, start: Time)
    requires res > 0 && row in db.rows && PolicyOf(cfg, db.rows[row].project).window >= res
    ensures BoundMet(cfg, res, db, at, run, row, start)
  {
    var policy := PolicyOf(cfg, db.rows[row].project);
    if && Schema(db) && Valid(cfg, db, at, run) && Recorded(res, start, run) && policy.batch >= 1
       && Ripe(EntryOf(db, row), policy.window, start) {
      NoStarvation(cfg, db, at, run, row, res, start);
    }
  }

  lemma BoundBroken(cfg: Settings, res: Time, db: Db, run: seq<Event>, start: Time)
    requires res > 0 && "r" in db.rows && db.rows["r"].project == "p" && PolicyOf(cfg, "p").batch == 1 && Schema(db)
    requires Weighted(db.rows["r"]) == 0 && Valid(cfg, db, 0, run) && Recorded(res, start, run)
    requires Ripe(EntryOf(db, "r"), PolicyOf(cfg, "p").window, start)
    requires Rank(db, "p", 0) == 1 && DueTicks(cfg, db, 0, run, "p") == 1
    requires Holds(Run(cfg, db, 0, run), "r", db.rows["r"])
    ensures !BoundMet(cfg, res, db, 0, run, "r", start)
  {
  }
}
