/** When the recorded batches of a project are a full window apart, and when the rate bound
    holds with the full window. */
module FullWindow {
  import opened Tables
  import opened Selection
  import opened Lifecycle
  import opened Clock
  import opened Scheduler
  import opened SplitScheduler
  import opened RateBound

  // ---------- spacing ----------

  /** The batches a run records for the project are a full window apart. */
  ghost predicate WindowKept(cfg: Settings, res: Time, w: World, clock: Time, acts: seq<Action>, project: string)
    requires res > 0
  {
    SplitInv(w) && Possible(cfg, w, acts) && Timed(res, clock, acts) && Paced(cfg, res, w, clock, project) ==>
      Spaced(Log(cfg, w, acts, project), PolicyOf(cfg, project).batch, PolicyOf(cfg, project).window,
             LastStamp(w.db, project))
  }

  /** A scheduler step that passes the cooldown and is recorded less than a window after
      the stored stamp. */
  ghost predicate EarlyStamp(cfg: Settings, db: Db, res: Time, e: Event)
    requires res > 0
  {
    && e.step == Tick("p", ["r"]) && Enabled(db, e) && e.at == Trunc(res, e.now)
    && Due(cfg, db, "p", e.now) && TickBatch(cfg, db, "p", ["r"], e.now) != []
    && BatchKey("p") in db.stamps && Aligned(res, db.stamps[BatchKey("p")])
    && e.at - db.stamps[BatchKey("p")] < PolicyOf(cfg, "p").window
  }

  /** With any window that is no multiple of the resolution there is such a step. */
  lemma EarlyStampHappens(res: Time, window: Time, person: Profile) returns (cfg: Settings, db: Db, e: Event)
    requires res > 0 && !Aligned(res, window)
    ensures PolicyOf(cfg, "p") == Policy(1, window, false)
    ensures Schema(db) && Disjoint(db) && Audited(db, 0) && db.users.Keys == {"u"} && db.rows.Keys == {"r"}
    ensures db.stamps == map[BatchKey("p") := 0] && e.now == window && EarlyStamp(cfg, db, res, e)
  {
    cfg := Settings(1, window, map["p" := Override(None, None, false)]);
    db := Db(map["u" := NewUser("p", "a@b", person, 0)], map["r" := Row("p", "u", 0, 0)], map[BatchKey("p") := 0]);
    e := Event(window, Trunc(res, window), Tick("p", ["r"]));
    Multiple(res, 0, 0);
    var entry := EntryOf(db, "r");
    assert Entries(db, ["r"]) == [entry] == Take([entry], 1);
    assert RipeBelow([entry], 0, window, window) == [];
    assert RipeOnly([entry], window, window) == [entry];
  }

  /** Run alone, that step breaks the full window. */
  lemma EarlyStampBreaks(res: Time, window: Time, person: Profile)
    returns (cfg: Settings, w: World, acts: seq<Action>)
    requires res > 0 && !Aligned(res, window)
    ensures PolicyOf(cfg, "p").window == window && !WindowKept(cfg, res, w, window, acts, "p")
  {
    var db, e;
    cfg, db, e := EarlyStampHappens(res, window, person);
    w := World(db, {"u", "r"}, None);
    var at := Trunc(res, window);
    assert [e][1..] == [];
    assert Valid(cfg, db, at, [e]) && TimedRun(res, window, [e]) && FreshRun(w.issued, [e]);
    acts := AtomicRunsAreSplit(cfg, res, w, window, at, [e], "p");
    assert AtomicLog(cfg, Apply(cfg, db, e), at, [], "p") == [];
    EarlyIsUnspaced(Log(cfg, w, acts, "p"), at, window);
  }

  lemma EarlyIsUnspaced(log: seq<Promotion>, at: Time, window: Time)
    requires |log| == 1 && log[0].at == at < window
    ensures !Spaced(log, 1, window, Some(0))
  {
  }

  /** Over all runs, split ones included, the batches of a project are recorded a full
      window apart exactly when its window is a multiple of the storage resolution. */
  lemma WindowKeptExactly(res: Time, window: Time)
    requires res > 0
    ensures Aligned(res, window) <==>
              forall cfg, w, clock, acts, project ::
                PolicyOf(cfg, project).window == window ==> WindowKept(cfg, res, w, clock, acts, project)
  {
    if Aligned(res, window) {
      forall cfg, w, clock, acts, project | PolicyOf(cfg, project).window == window
        ensures WindowKept(cfg, res, w, clock, acts, project)
      {
        if SplitInv(w) && Possible(cfg, w, acts) && Timed(res, clock, acts) && Paced(cfg, res, w, clock, project) {
          BatchesAreSpaced(cfg, res, w, clock, acts, project);
          assert Trunc(res, window) == window;
        }
      }
    } else {
      var cfg, w, acts := EarlyStampBreaks(res, window, Profile("", "", None));
    }
  }

  // ---------- rate ----------

  /** The bound with the window itself in place of the truncated one. */
  ghost predicate RateKept(cfg: Settings, res: Time, w: World, clock: Time, acts: seq<Action>, project: string,
                           start: Time, length: nat)
    requires res > 0
  {
    && SplitInv(w) && Possible(cfg, w, acts) && Timed(res, clock, acts) && Paced(cfg, res, w, clock, project)
    && PolicyOf(cfg, project).window > 0 ==>
      PromotedWithin(Log(cfg, w, acts, project), start, length)
      <= PolicyOf(cfg, project).batch * (length / PolicyOf(cfg, project).window + 1)
  }

  /** Two scheduler steps, each promoting one user. */
  ghost predicate TwoBatches(cfg: Settings, db: Db, e1: Event, e2: Event) {
    && e1.step.Tick? && e2.step.Tick? && e1.step.project == e2.step.project == "p"
    && Enabled(db, e1) && PromotesOne(cfg, db, e1)
    && Enabled(Apply(cfg, db, e1), e2) && PromotesOne(cfg, Apply(cfg, db, e1), e2)
  }

  function BurstDb(person: Profile): Db {
    Db(map["u" := NewUser("p", "a@b", person, 0), "v" := NewUser("p", "c@d", person, 0)],
       map["r" := Row("p", "u", 0, 0), "q" := Row("p", "v", 0, 0)], map[])
  }

  ghost predicate BurstReady(db: Db) {
    && Schema(db) && Listing(db, "p", ["r", "q"]) && db.stamps == map[] && db.users.Keys == {"u", "v"}
    && db.rows == map["r" := Row("p", "u", 0, 0), "q" := Row("p", "v", 0, 0)]
  }

  lemma BurstDbIsReady(person: Profile)
    ensures BurstReady(BurstDb(person))
  {
    var db := BurstDb(person);
    assert OwnerAgrees(db, db.rows["r"]) && OwnerAgrees(db, db.rows["q"]);
    assert !SameLogin(db.users["u"], db.users["v"]);
    assert Schema(db);
  }

  lemma FirstOfBurst(cfg: Settings, window: Time, base: Time, db: Db)
    requires PolicyOf(cfg, "p") == Policy(1, window, false) && base >= window && BurstReady(db)
    ensures var e := Event(base, base, Tick("p", ["r", "q"]));
            && PromotesOne(cfg, db, e)
            && Apply(cfg, db, e).rows == map["q" := Row("p", "v", 0, 0)]
            && Apply(cfg, db, e).stamps == map[Stamp("p", WAITLIST_KEY) := base]
  {
    var e := Event(base, base, Tick("p", ["r", "q"]));
    FirstIsBatch(cfg, db, "p", window, ["r", "q"], base);
    TickTakesOne(cfg, db, e, "r");
    assert Apply(cfg, db, e).rows.Keys == {"q"};
  }

  lemma SecondOfBurst(cfg: Settings, window: Time, base: Time, at: Time, db: Db)
    requires PolicyOf(cfg, "p") == Policy(1, window, false) && base >= 0 && Schema(db)
    requires db.rows == map["q" := Row("p", "v", 0, 0)] && db.stamps == map[Stamp("p", WAITLIST_KEY) := base]
    ensures var e := Event(base + window, at, Tick("p", ["q"]));
            Enabled(db, e) && PromotesOne(cfg, db, e)
  {
    assert Listing(db, "p", ["q"]);
    FirstIsBatch(cfg, db, "p", window, ["q"], base + window);
    TickTakesOne(cfg, db, Event(base + window, at, Tick("p", ["q"])), "q");
  }

  lemma TwoAtOnce(log: seq<Promotion>, base: Time, at: Time)
    requires log == [Promotion(base, 1), Promotion(at, 1)] && base <= at
    ensures PromotedWithin(log, base, at - base) == 2
  {
    assert log[1..] == [Promotion(at, 1)] && log[1..][1..] == [];
    assert PromotedWithin(log[1..], base, at - base) == 1;
  }

  lemma BurstPair(cfg: Settings, window: Time, base: Time, at: Time, db: Db) returns (e1: Event, e2: Event)
    requires PolicyOf(cfg, "p") == Policy(1, window, false) && window > 0 && base >= window && BurstReady(db)
    ensures TwoBatches(cfg, db, e1, e2)
    ensures e1.now == e1.at == base && e2.now == base + window && e2.at == at
  {
    e1 := Event(base, base, Tick("p", ["r", "q"]));
    e2 := Event(base + window, at, Tick("p", ["q"]));
    FirstOfBurst(cfg, window, base, db);
    StepKeepsSchema(cfg, db, e1);
    SecondOfBurst(cfg, window, base, at, Apply(cfg, db, e1));
  }

  lemma BurstWorld(res: Time, window: Time, base: Time, person: Profile) returns (cfg: Settings, w: World)
    requires res > 0
    ensures PolicyOf(cfg, "p") == Policy(1, window, false)
    ensures SplitInv(w) && Paced(cfg, res, w, base, "p") && BurstReady(w.db) && w.pending.None?
  {
    cfg := Settings(1, window, map["p" := Override(None, None, false)]);
    w := World(BurstDb(person), {"u", "v", "r", "q"}, None);
    BurstDbIsReady(person);
    assert w.db.users.Keys + w.db.rows.Keys <= w.issued;
  }

  lemma BurstBegins(res: Time, window: Time, base: Time, at: Time, person: Profile)
    returns (cfg: Settings, w: World, e1: Event, e2: Event)
    requires res > 0 && window > 0 && base >= window
    ensures PolicyOf(cfg, "p") == Policy(1, window, false)
    ensures SplitInv(w) && Paced(cfg, res, w, base, "p") && w.pending.None?
    ensures TwoBatches(cfg, w.db, e1, e2)
    ensures e1.now == e1.at == base && e2.now == base + window && e2.at == at
  {
    cfg, w := BurstWorld(res, window, base, person);
    e1, e2 := BurstPair(cfg, window, base, at, w.db);
  }

  lemma BurstLog(cfg: Settings, db: Db, e1: Event, e2: Event)
    requires TwoBatches(cfg, db, e1, e2) && e1.at <= e2.at
    ensures Valid(cfg, db, e1.at, [e1, e2])
    ensures AtomicLog(cfg, db, e1.at, [e1, e2], "p") == [Promotion(e1.at, 1), Promotion(e2.at, 1)]
  {
    var next := Apply(cfg, db, e1);
    assert [e1, e2][1..] == [e2] && [e2][1..] == [];
    assert Valid(cfg, Apply(cfg, next, e2), e2.at, []);
    assert Valid(cfg, next, e1.at, [e2]);
    assert AtomicLog(cfg, Apply(cfg, next, e2), e2.at, [], "p") == [];
    assert AtomicLog(cfg, next, e1.at, [e2], "p") == [Promotion(e2.at, 1)];
  }

  lemma BurstIsTimed(res: Time, issued: set<Id>, e1: Event, e2: Event)
    requires res > 0 && e1.step.Tick? && e2.step.Tick? && e1.now <= e2.now
    requires e1.at == Trunc(res, e1.now) && e2.at == Trunc(res, e2.now)
    ensures TimedRun(res, e1.now, [e1, e2]) && FreshRun(issued, [e1, e2])
  {
    assert [e1, e2][1..] == [e2] && [e2][1..] == [];
    assert TimedRun(res, e1.now, [e2]);
    assert FreshRun(issued + {}, [e2]);
  }

  /** The two steps as a run, with what the run promotes. */
  ghost predicate BurstRun(cfg: Settings, res: Time, w: World, base: Time, at: Time, run: seq<Event>)
    requires res > 0
  {
    && SplitInv(w) && w.pending.None? && Valid(cfg, w.db, base, run)
    && TimedRun(res, base, run) && FreshRun(w.issued, run)
    && AtomicLog(cfg, w.db, base, run, "p") == [Promotion(base, 1), Promotion(at, 1)]
  }

  lemma BurstRuns(cfg: Settings, res: Time, w: World, base: Time, at: Time, e1: Event, e2: Event)
    returns (run: seq<Event>)
    requires res > 0 && SplitInv(w) && w.pending.None? && TwoBatches(cfg, w.db, e1, e2)
    requires e1.at == e1.now == base == Trunc(res, base) && e2.at == at == Trunc(res, e2.now)
    requires base <= e2.now && base <= at
    ensures BurstRun(cfg, res, w, base, at, run)
  {
    run := [e1, e2];
    BurstIsTimed(res, w.issued, e1, e2);
    BurstLog(cfg, w.db, e1, e2);
  }

  lemma BurstActs(cfg: Settings, res: Time, w: World, base: Time, at: Time, run: seq<Event>) returns (acts: seq<Action>)
    requires res > 0 && base <= at && BurstRun(cfg, res, w, base, at, run)
    ensures Possible(cfg, w, acts) && Timed(res, base, acts)
    ensures PromotedWithin(Log(cfg, w, acts, "p"), base, at - base) == 2
  {
    acts := AtomicRunsAreSplit(cfg, res, w, base, base, run, "p");
    TwoAtOnce(Log(cfg, w, acts, "p"), base, at);
  }

  lemma BurstStarts(res: Time, window: Time, base: Time, at: Time, person: Profile)
    returns (cfg: Settings, w: World, run: seq<Event>)
    requires res > 0 && window > 0 && base >= window && base <= at
    requires base == Trunc(res, base) && at == Trunc(res, base + window)
    ensures PolicyOf(cfg, "p") == Policy(1, window, false)
    ensures Paced(cfg, res, w, base, "p") && BurstRun(cfg, res, w, base, at, run)
  {
    var e1, e2;
    cfg, w, e1, e2 := BurstBegins(res, window, base, at, person);
    assert e2.at == Trunc(res, e2.now) by { assert e2.now == base + window; }
    run := BurstRuns(cfg, res, w, base, at, e1, e2);
  }

  lemma BurstSplit(res: Time, window: Time, base: Time, at: Time, person: Profile)
    returns (cfg: Settings, w: World, acts: seq<Action>)
    requires res > 0 && window > 0 && base >= window && base <= at
    requires base == Trunc(res, base) && at == Trunc(res, base + window)
    ensures PolicyOf(cfg, "p") == Policy(1, window, false)
    ensures SplitInv(w) && Possible(cfg, w, acts) && Timed(res, base, acts) && Paced(cfg, res, w, base, "p")
    ensures PromotedWithin(Log(cfg, w, acts, "p"), base, at - base) == 2
  {
    var run;
    cfg, w, run := BurstStarts(res, window, base, at, person);
    acts := BurstActs(cfg, res, w, base, at, run);
  }

  /** With any window that is no multiple of the resolution two batches of one row each fall
      into an interval shorter than the window. */
  lemma BurstBreaks(res: Time, window: Time, base: Time, person: Profile)
    returns (cfg: Settings, w: World, acts: seq<Action>, at: Time)
    requires res > 0 && window > 0 && !Aligned(res, window) && Aligned(res, base) && base >= window
    ensures PolicyOf(cfg, "p") == Policy(1, window, false)
    ensures SplitInv(w) && Possible(cfg, w, acts) && Timed(res, base, acts) && Paced(cfg, res, w, base, "p")
    ensures 0 <= at - base < window && PromotedWithin(Log(cfg, w, acts, "p"), base, at - base) == 2
  {
    TruncNonNegative(res, window);
    TruncShift(res, base, window);
    at := Trunc(res, base + window);
    cfg, w, acts := BurstSplit(res, window, base, at, person);
  }

  lemma SmallQuotient(a: nat, b: nat)
    requires a < b
    ensures a / b == 0
  {
  }

  /** An aligned time at least so large. */
  lemma SomeAligned(res: Time, window: Time) returns (base: Time)
    requires res > 0 && window > 0
    ensures Aligned(res, base) && base >= window
  {
    base := Trunc(res, window + res);
    TruncAligned(res, window + res);
    TruncBounds(res, window + res);
  }

  lemma AlignedRate(cfg: Settings, res: Time, w: World, clock: Time, acts: seq<Action>, project: string, start: Time,
                    length: nat)
    requires res > 0 && PolicyOf(cfg, project).window > 0 && Aligned(res, PolicyOf(cfg, project).window)
    ensures RateKept(cfg, res, w, clock, acts, project, start, length)
  {
    if SplitInv(w) && Possible(cfg, w, acts) && Timed(res, clock, acts) && Paced(cfg, res, w, clock, project) {
      Multiple(res, 0, 0);
      AlignedApart(res, 0, PolicyOf(cfg, project).window);
      PromotionRate(cfg, res, w, clock, acts, project, start, length);
    }
  }

  /** The bound with the full window holds for all runs exactly when the window is a multiple
      of the storage resolution. */
  lemma RateExactly(res: Time, window: Time)
    requires res > 0 && window > 0
    ensures Aligned(res, window) <==>
              forall cfg, w, clock, acts, project, start, length ::
                PolicyOf(cfg, project).window == window ==> RateKept(cfg, res, w, clock, acts, project, start, length)
  {
    if Aligned(res, window) {
      forall cfg, w, clock, acts, project, start, length | PolicyOf(cfg, project).window == window
        ensures RateKept(cfg, res, w, clock, acts, project, start, length)
      {
        AlignedRate(cfg, res, w, clock, acts, project, start, length);
      }
    } else {
      var base := SomeAligned(res, window);
      var cfg, w, acts, at := BurstBreaks(res, window, base, Profile("", "", None));
      SmallQuotient(at - base, window);
      assert !RateKept(cfg, res, w, base, acts, "p", base, at - base);
    }
  }
}
