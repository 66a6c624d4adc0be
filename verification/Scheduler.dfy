/** What one scheduler run selects, and why no ripe entry is passed over for ever. */
module Scheduler {
  import opened Tables
  import opened Selection
  import opened Lifecycle
  import opened Clock

  /** Outside the cooldown a run promotes a prefix of the listing: all of the batch size,
      or all ripe rows if they are fewer. */
  lemma BatchIsPrefix(cfg: Settings, db: Db, project: string, order: seq<Id>, now: Time) returns (k: nat)
    requires Listing(db, project, order) && Due(cfg, db, project, now)
    ensures var policy := PolicyOf(cfg, project);
            && k <= |order| && k <= policy.batch
            && TickBatch(cfg, db, project, order, now) == Entries(db, order)[..k]
            && (forall i :: 0 <= i < k ==> Ripe(EntryOf(db, order[i]), policy.window, now))
            && (k < policy.batch ==>
                  forall i :: k <= i < |order| ==> !Ripe(EntryOf(db, order[i]), policy.window, now))
  {
    var policy := PolicyOf(cfg, project);
    var es := Entries(db, order);
    FetchThenFilter(es, policy.batch, policy.window, now);
    var n := RipeIsPrefix(es, policy.window, now);
    k := if n <= policy.batch then n else policy.batch;
    forall i | 0 <= i < |order| ensures es[i] == EntryOf(db, order[i]) {}
  }

  /** The run promotes the first ripe rows of the whole project, although it only ever
      fetches a batch. */
  lemma SelectionIsOptimal(cfg: Settings, db: Db, project: string, order: seq<Id>, now: Time)
    requires Listing(db, project, order) && Due(cfg, db, project, now)
    ensures TickBatch(cfg, db, project, order, now)
         == Take(RipeOnly(Entries(db, order), PolicyOf(cfg, project).window, now), PolicyOf(cfg, project).batch)
  {
    FetchThenFilter(Entries(db, order), PolicyOf(cfg, project).batch, PolicyOf(cfg, project).window, now);
  }

  // ---------- batches of one ----------

  ghost predicate PromotesOne(cfg: Settings, db: Db, e: Event)
    requires e.step.Tick? && Enabled(db, e)
  {
    var batch := TickBatch(cfg, db, e.step.project, e.step.order, e.now);
    |batch| == 1 && |UsersOf(batch) * db.users.Keys| == 1
  }

  /** With a batch size of one the first row of the listing is promoted. */
  lemma FirstIsBatch(cfg: Settings, db: Db, project: string, window: Time, order: seq<Id>, now: Time)
    requires PolicyOf(cfg, project) == Policy(1, window, false) && Listing(db, project, order) && order != []
    requires Due(cfg, db, project, now) && Ripe(EntryOf(db, order[0]), window, now)
    ensures TickBatch(cfg, db, project, order, now) == [EntryOf(db, order[0])]
  {
    var entry := EntryOf(db, order[0]);
    assert Take(Entries(db, order), 1) == [entry];
    assert RipeBelow([entry], 0, window, now) == [];
    assert RipeOnly([entry], window, now) == [entry];
  }

  lemma OneEntry(e: Entry)
    ensures UsersOf([e]) == {e.userId} && RowsOf([e]) == {e.id}
  {
    assert [e][0].id in RowsOf([e]) && [e][0].userId in UsersOf([e]);
  }

  lemma TickTakesOne(cfg: Settings, db: Db, e: Event, row: Id)
    requires RowsOwned(db) && e.step.Tick? && Enabled(db, e) && row in db.rows
    requires TickBatch(cfg, db, e.step.project, e.step.order, e.now) == [EntryOf(db, row)]
    ensures PromotesOne(cfg, db, e)
    ensures Apply(cfg, db, e).rows == map r | r in db.rows && r != row :: db.rows[r]
    ensures Apply(cfg, db, e).stamps == db.stamps[Stamp(e.step.project, WAITLIST_KEY) := e.at]
  {
    TickCommits(cfg, db, e);
    OneEntry(EntryOf(db, row));
    assert OwnerAgrees(db, db.rows[row]);
    assert {db.rows[row].userId} * db.users.Keys == {db.rows[row].userId};
  }

  // ---------- no starvation ----------

  function AheadOf(db: Db, project: string, w: Time): set<Id> {
    set r | r in db.rows && db.rows[r].project == project && Weighted(db.rows[r]) <= w
  }

  /** How many rows of the project are not behind the given weighted time. */
  function Rank(db: Db, project: string, w: Time): nat {
    |AheadOf(db, project, w)|
  }

  lemma SubsetSize<T>(a: set<T>, b: set<T>)
    requires a <= b
    ensures |a| <= |b|
  {
    assert b == a + (b - a);
  }

  /** No step recorded after a weighted time adds a row at or before it. */
  lemma NoneJoinsAhead(cfg: Settings, db: Db, e: Event, project: string, w: Time)
    requires Enabled(db, e) && e.at > w
    ensures AheadOf(Apply(cfg, db, e), project, w) <= AheadOf(db, project, w)
  {
    if !e.step.SignUp? {
      StepShrinks(cfg, db, e);
    }
  }

  /** No step recorded after a weighted time raises the rank of that time. */
  lemma RankNeverRises(cfg: Settings, db: Db, e: Event, project: string, w: Time)
    requires Enabled(db, e) && e.at > w
    ensures Rank(Apply(cfg, db, e), project, w) <= Rank(db, project, w)
  {
    NoneJoinsAhead(cfg, db, e, project, w);
    SubsetSize(AheadOf(Apply(cfg, db, e), project, w), AheadOf(db, project, w));
  }

  function FirstOf(order: seq<Id>, k: nat): set<Id>
    requires k <= |order|
  {
    set i | 0 <= i < k :: order[i]
  }

  lemma FirstOfNext(order: seq<Id>, k: nat)
    requires k < |order|
    ensures FirstOf(order, k + 1) == FirstOf(order, k) + {order[k]}
  {
  }

  lemma {:induction false} PrefixSize(order: seq<Id>, k: nat)
    requires k <= |order| && forall i, j :: 0 <= i < j < |order| ==> order[i] != order[j]
    ensures |FirstOf(order, k)| == k
  {
    if k > 0 {
      PrefixSize(order, k - 1);
      FirstOfNext(order, k - 1);
      assert order[k - 1] !in FirstOf(order, k - 1);
    }
  }

  /** Gone are the first k rows of the listing, and nothing else. */
  ghost predicate PrefixRemoved(db: Db, after: Db, order: seq<Id>, k: nat)
    requires k <= |order|
  {
    && after.rows.Keys <= db.rows.Keys
    && (forall r :: r in FirstOf(order, k) ==> r !in after.rows)
    && (forall r :: r in db.rows && r !in FirstOf(order, k) ==> r in after.rows && after.rows[r] == db.rows[r])
  }

  lemma PromotedRemoves(db: Db, after: Db, batch: seq<Entry>, at: Time, order: seq<Id>, k: nat)
    requires Promoted(db, after, batch, at) && k == |batch| <= |order|
    requires forall i :: 0 <= i < k ==> batch[i].id == order[i]
    ensures PrefixRemoved(db, after, order, k)
  {
  }

  /** The rows a run removes are the first k of the listing. */
  lemma TickRemovesPrefix(cfg: Settings, db: Db, e: Event) returns (k: nat)
    requires RowsOwned(db) && Enabled(db, e) && e.step.Tick? && Due(cfg, db, e.step.project, e.now)
    ensures k <= |e.step.order| && k <= PolicyOf(cfg, e.step.project).batch
    ensures k == |TickBatch(cfg, db, e.step.project, e.step.order, e.now)|
    ensures PrefixRemoved(db, Apply(cfg, db, e), e.step.order, k)
    ensures k < PolicyOf(cfg, e.step.project).batch ==>
              forall i :: k <= i < |e.step.order| ==>
                            !Ripe(EntryOf(db, e.step.order[i]), PolicyOf(cfg, e.step.project).window, e.now)
  {
    var order := e.step.order;
    k := BatchIsPrefix(cfg, db, e.step.project, order, e.now);
    if k > 0 {
      TickCommits(cfg, db, e);
      PromotedRemoves(db, Apply(cfg, db, e), TickBatch(cfg, db, e.step.project, order, e.now), e.at, order, k);
    }
  }

  /** Nobody left behind was ahead of somebody promoted, and everybody promoted had waited
      the window out, weight included. */
  lemma SelectionIsFair(cfg: Settings, db: Db, e: Event, gone: Id)
    requires RowsOwned(db) && Enabled(db, e) && e.step.Tick?
    requires gone in db.rows && gone !in Apply(cfg, db, e).rows
    ensures var row := db.rows[gone];
            var after := Apply(cfg, db, e);
            && row.project == e.step.project
            && e.now >= row.createdAt - row.weight * HOUR + PolicyOf(cfg, row.project).window
            && (row.userId in after.users && after.users[row.userId].hasAccess)
            && forall r :: r in after.rows && after.rows[r].project == row.project ==>
                             Weighted(row) <= Weighted(after.rows[r])
  {
    var order, after := e.step.order, Apply(cfg, db, e);
    TickCommits(cfg, db, e);
    var batch := TickBatch(cfg, db, e.step.project, order, e.now);
    var i :| 0 <= i < |batch| && batch[i].id == gone;
    assert batch[i].userId in UsersOf(batch) && OwnerAgrees(db, db.rows[gone]);
    BatchIsOldest(cfg, db, e, i);
  }

  lemma BatchIsOldest(cfg: Settings, db: Db, e: Event, i: nat)
    requires RowsOwned(db) && Enabled(db, e) && e.step.Tick?
    requires i < |TickBatch(cfg, db, e.step.project, e.step.order, e.now)|
    ensures var batch := TickBatch(cfg, db, e.step.project, e.step.order, e.now);
            && batch[i].id in db.rows && batch[i] == EntryOf(db, batch[i].id)
            && db.rows[batch[i].id].project == e.step.project
            && Ripe(batch[i], PolicyOf(cfg, e.step.project).window, e.now)
            && forall r :: r in Apply(cfg, db, e).rows && Apply(cfg, db, e).rows[r].project == e.step.project ==>
                             batch[i].weightedAt <= Weighted(Apply(cfg, db, e).rows[r])
  {
    var order, after := e.step.order, Apply(cfg, db, e);
    var k := BatchIsPrefix(cfg, db, e.step.project, order, e.now);
    var n := TickRemovesPrefix(cfg, db, e);
    StepShrinks(cfg, db, e);
    forall r | r in after.rows && after.rows[r].project == e.step.project
      ensures Weighted(db.rows[order[i]]) <= Weighted(after.rows[r])
    {
      var j :| 0 <= j < |order| && order[j] == r;
      assert r !in FirstOf(order, k);
      assert i <= j;
    }
  }

  /** Removing the first k rows of a listing takes k off the rank of any row behind them. */
  lemma PrefixOffRank(db: Db, after: Db, project: string, order: seq<Id>, k: nat, j: nat)
    requires Listing(db, project, order) && k <= j < |order| && PrefixRemoved(db, after, order, k)
    ensures Rank(after, project, Weighted(db.rows[order[j]])) + k == Rank(db, project, Weighted(db.rows[order[j]]))
  {
    var w := Weighted(db.rows[order[j]]);
    var gone := FirstOf(order, k);
    PrefixSize(order, k);
    forall i | 0 <= i < k ensures order[i] in AheadOf(db, project, w) {
      assert Weighted(db.rows[order[i]]) <= Weighted(db.rows[order[j]]);
    }
    assert AheadOf(db, project, w) == AheadOf(after, project, w) + gone;
    assert AheadOf(after, project, w) !! gone;
  }

  /** A scheduler run outside the cooldown, while a row is ripe, promotes somebody: that
      row, or a full batch of rows ahead of it. */
  lemma RankFalls(cfg: Settings, db: Db, e: Event, row: Id)
    requires RowsOwned(db) && Enabled(db, e) && e.step.Tick?
    requires row in db.rows && db.rows[row].project == e.step.project
    requires Due(cfg, db, e.step.project, e.now) && PolicyOf(cfg, e.step.project).batch >= 1
    requires Ripe(EntryOf(db, row), PolicyOf(cfg, e.step.project).window, e.now)
    ensures TickBatch(cfg, db, e.step.project, e.step.order, e.now) != []
    ensures var project, w := e.step.project, Weighted(db.rows[row]);
            var after := Apply(cfg, db, e);
            row in after.rows ==>
              Rank(after, project, w) + PolicyOf(cfg, project).batch == Rank(db, project, w)
  {
    var project, order := e.step.project, e.step.order;
    var k := TickRemovesPrefix(cfg, db, e);
    var j :| 0 <= j < |order| && order[j] == row;
    assert k < PolicyOf(cfg, project).batch ==> j < k;
    if row in Apply(cfg, db, e).rows {
      assert order[j] !in FirstOf(order, k);
      PrefixOffRank(db, Apply(cfg, db, e), project, order, k, j);
    }
  }

  /** The number of batches a run promotes for a project. */
  ghost function Batches(cfg: Settings, db: Db, at: Time, run: seq<Event>, project: string): nat
    requires Valid(cfg, db, at, run)
    decreases |run|
  {
    if run == [] then 0
    else
      var rest := Batches(cfg, Apply(cfg, db, run[0]), run[0].at, run[1..], project);
      if Promotes(cfg, db, run[0], project) then rest + 1 else rest
  }

  /** Every reading is at or after `start` and recorded at the given resolution. */
  ghost predicate Recorded(res: Time, start: Time, run: seq<Event>)
    requires res > 0
  {
    forall i :: 0 <= i < |run| ==> run[i].now >= start && run[i].at == Trunc(res, run[i].now)
  }

  ghost predicate Holds(db: Db, row: Id, content: Row) {
    row in db.rows && db.rows[row] == content
  }

  /** A row removed is not that row again, whatever identifier a later row draws. */
  lemma {:induction false} GoneStaysGone(cfg: Settings, db: Db, at: Time, run: seq<Event>, row: Id, content: Row)
    requires Valid(cfg, db, at, run) && !Holds(db, row, content)
    requires forall i :: 0 <= i < |run| ==> run[i].at > Weighted(content)
    ensures !Holds(Run(cfg, db, at, run), row, content)
    decreases |run|
  {
    if run != [] {
      var after := Apply(cfg, db, run[0]);
      if !run[0].step.SignUp? { StepShrinks(cfg, db, run[0]); }
      assert !Holds(after, row, content);
      GoneStaysGone(cfg, after, run[0].at, run[1..], row, content);
    }
  }

  lemma RankPositive(db: Db, row: Id)
    requires row in db.rows
    ensures Rank(db, db.rows[row].project, Weighted(db.rows[row])) >= 1
  {
    assert row in AheadOf(db, db.rows[row].project, Weighted(db.rows[row]));
  }

  ghost predicate Promotes(cfg: Settings, db: Db, e: Event, project: string)
    requires Enabled(db, e)
  {
    e.step.Tick? && e.step.project == project && TickBatch(cfg, db, project, e.step.order, e.now) != []
  }

  lemma RankStep(cfg: Settings, db: Db, e: Event, row: Id)
    requires RowsOwned(db) && Enabled(db, e) && row in db.rows
    requires e.at > Weighted(db.rows[row]) && PolicyOf(cfg, db.rows[row].project).batch >= 1
    requires Ripe(EntryOf(db, row), PolicyOf(cfg, db.rows[row].project).window, e.now)
    requires row in Apply(cfg, db, e).rows
    ensures var project, w := db.rows[row].project, Weighted(db.rows[row]);
            var used := if Promotes(cfg, db, e, project) then PolicyOf(cfg, project).batch else 0;
            Rank(Apply(cfg, db, e), project, w) + used <= Rank(db, project, w)
  {
    if Promotes(cfg, db, e, db.rows[row].project) {
      RankFalls(cfg, db, e, row);
    } else {
      RankNeverRises(cfg, db, e, db.rows[row].project, Weighted(db.rows[row]));
    }
  }

  /** The row is ripe from `start` on, and every later record is strictly behind it. */
  ghost predicate RipeFrom(cfg: Settings, content: Row, run: seq<Event>) {
    forall i :: 0 <= i < |run| ==>
      && run[i].at > Weighted(content)
      && run[i].now - Weighted(content) >= PolicyOf(cfg, content.project).window
  }

  lemma RecordedBehind(cfg: Settings, content: Row, res: Time, start: Time, run: seq<Event>)
    requires 0 < res <= PolicyOf(cfg, content.project).window && Recorded(res, start, run)
    requires start - Weighted(content) >= PolicyOf(cfg, content.project).window
    ensures RipeFrom(cfg, content, run)
  {
  }

  lemma Spend(end: nat, next: nat, now: nat, batch: nat, rest: nat, promotes: bool)
    requires end + batch * rest <= next && next + (if promotes then batch else 0) <= now
    ensures end + batch * (if promotes then rest + 1 else rest) <= now
  {
  }

  /** The budget of the first step, given that of the rest. */
  lemma RankBudgetStep(cfg: Settings, db: Db, at: Time, run: seq<Event>, row: Id, content: Row, end: nat)
    requires RowsOwned(db) && Valid(cfg, db, at, run) && run != [] && Holds(db, row, content)
    requires PolicyOf(cfg, content.project).batch >= 1 && RipeFrom(cfg, content, run)
    requires Holds(Apply(cfg, db, run[0]), row, content)
    requires end + PolicyOf(cfg, content.project).batch
                   * Batches(cfg, Apply(cfg, db, run[0]), run[0].at, run[1..], content.project)
          <= Rank(Apply(cfg, db, run[0]), content.project, Weighted(content))
    ensures end + PolicyOf(cfg, content.project).batch * Batches(cfg, db, at, run, content.project)
         <= Rank(db, content.project, Weighted(content))
  {
    RankStep(cfg, db, run[0], row);
    Spend(end, Rank(Apply(cfg, db, run[0]), content.project, Weighted(content)),
          Rank(db, content.project, Weighted(content)),
          PolicyOf(cfg, content.project).batch,
          Batches(cfg, Apply(cfg, db, run[0]), run[0].at, run[1..], content.project),
          Promotes(cfg, db, run[0], content.project));
  }

  /** While a ripe row is still there, every promoted batch of its project has used up a
      full batch of its rank. */
  lemma {:induction false} RankBudget(cfg: Settings, db: Db, at: Time, run: seq<Event>, row: Id, content: Row)
    requires Schema(db) && Valid(cfg, db, at, run) && Holds(db, row, content)
    requires PolicyOf(cfg, content.project).batch >= 1 && RipeFrom(cfg, content, run)
    requires Holds(Run(cfg, db, at, run), row, content)
    ensures Rank(Run(cfg, db, at, run), content.project, Weighted(content))
          + PolicyOf(cfg, content.project).batch * Batches(cfg, db, at, run, content.project)
         <= Rank(db, content.project, Weighted(content))
    decreases |run|
  {
    if run == [] {
      assert PolicyOf(cfg, content.project).batch * 0 == 0;
    } else {
      var e, after := run[0], Apply(cfg, db, run[0]);
      assert RipeFrom(cfg, content, run[1..]);
      if !Holds(after, row, content) {
        GoneStaysGone(cfg, after, e.at, run[1..], row, content);
      }
      StepKeepsSchema(cfg, db, e);
      RankBudget(cfg, after, e.at, run[1..], row, content);
      RankBudgetStep(cfg, db, at, run, row, content, Rank(Run(cfg, db, at, run), content.project, Weighted(content)));
    }
  }

  /** The number of scheduler runs for a project outside its cooldown. */
  ghost function DueTicks(cfg: Settings, db: Db, at: Time, run: seq<Event>, project: string): nat
    requires Valid(cfg, db, at, run)
    decreases |run|
  {
    if run == [] then 0
    else
      var rest := DueTicks(cfg, Apply(cfg, db, run[0]), run[0].at, run[1..], project);
      var e := run[0];
      if e.step.Tick? && e.step.project == project && Due(cfg, db, project, e.now) then rest + 1 else rest
  }

  /** While a ripe row is still there, no scheduler run outside the cooldown is idle. */
  lemma {:induction false} DueTicksPromote(cfg: Settings, db: Db, at: Time, run: seq<Event>, row: Id, content: Row)
    requires Schema(db) && Valid(cfg, db, at, run) && Holds(db, row, content)
    requires PolicyOf(cfg, content.project).batch >= 1 && RipeFrom(cfg, content, run)
    requires Holds(Run(cfg, db, at, run), row, content)
    ensures DueTicks(cfg, db, at, run, content.project) == Batches(cfg, db, at, run, content.project)
    decreases |run|
  {
    if run != [] {
      var e, after := run[0], Apply(cfg, db, run[0]);
      assert RipeFrom(cfg, content, run[1..]);
      if !Holds(after, row, content) {
        GoneStaysGone(cfg, after, e.at, run[1..], row, content);
      }
      StepKeepsSchema(cfg, db, e);
      DueTicksPromote(cfg, after, e.at, run[1..], row, content);
      if e.step.Tick? && e.step.project == content.project && Due(cfg, db, content.project, e.now) {
        RankFalls(cfg, db, e, row);
      }
    }
  }

  /** No starvation: once ripe, a row is gone after at most ceil(rank / batch) scheduler runs
      of its project outside the cooldown, whatever else happens. */
  lemma NoStarvation(cfg: Settings, db: Db, at: Time, run: seq<Event>, row: Id, res: Time, start: Time)
    requires Schema(db) && Valid(cfg, db, at, run) && row in db.rows
    requires 0 < res <= PolicyOf(cfg, db.rows[row].project).window && PolicyOf(cfg, db.rows[row].project).batch >= 1
    requires Ripe(EntryOf(db, row), PolicyOf(cfg, db.rows[row].project).window, start) && Recorded(res, start, run)
    ensures var project, batch := db.rows[row].project, PolicyOf(cfg, db.rows[row].project).batch;
            DueTicks(cfg, db, at, run, project) >= (Rank(db, project, Weighted(db.rows[row])) + batch - 1) / batch ==>
              !Holds(Run(cfg, db, at, run), row, db.rows[row])
  {
    var project, batch := db.rows[row].project, PolicyOf(cfg, db.rows[row].project).batch;
    var rank, n := Rank(db, project, Weighted(db.rows[row])), Batches(cfg, db, at, run, project);
    if Holds(Run(cfg, db, at, run), row, db.rows[row]) {
      RecordedBehind(cfg, db.rows[row], res, start, run);
      RankBudget(cfg, db, at, run, row, db.rows[row]);
      DueTicksPromote(cfg, db, at, run, row, db.rows[row]);
      RankPositive(Run(cfg, db, at, run), row);
      CeilTimes(rank, batch, n);
    }
  }

  lemma CeilTimes(rank: nat, batch: nat, n: nat)
    requires batch >= 1 && batch * n < rank
    ensures n < (rank + batch - 1) / batch
  {
  }

  /** With a window shorter than the storage resolution the budget argument fails: a row
      signed up after another was ripe is recorded at the same time and raises its rank. */
  lemma ShortWindowRaisesRank(res: Time, window: Time, person: Profile) returns (cfg: Settings, db: Db, e: Event)
    requires 0 < window < res
    ensures PolicyOf(cfg, "p").window == window && "r" in db.rows && db.rows["r"].project == "p" && Schema(db)
    ensures Ripe(EntryOf(db, "r"), window, e.now) && e.at == Trunc(res, e.now) && Enabled(db, e)
    ensures Rank(Apply(cfg, db, e), "p", Weighted(db.rows["r"])) == Rank(db, "p", Weighted(db.rows["r"])) + 1
  {
    cfg := Settings(1, window, map["p" := Override(None, None, false)]);
    db := Db(map["u" := NewUser("p", "a@b", person, 0)], map["r" := Row("p", "u", 0, 0)], map[]);
    e := Event(window, Trunc(res, window), SignUp("p", "c@d", person, "v", "q"));
    Multiple(res, 0, window);
    assert db.users["u"].email == "a@b" && FindUser(db, "p", "c@d") == None;
    assert AheadOf(db, "p", 0) == {"r"};
    assert AheadOf(Apply(cfg, db, e), "p", 0) == {"r", "q"};
  }
}
