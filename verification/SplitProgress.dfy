/** No starvation in split runs: a ripe row is gone after boundedly many batches that its
    project reads and commits, whatever comes in between. */
module SplitProgress {
  import opened Tables
  import opened Selection
  import opened Lifecycle
  import opened Clock
  import opened Scheduler
  import opened SplitScheduler
  import opened RateBound

  /** The batch pending is one of the project, read in the run, and does not hold the row. */
  predicate AheadPending(w: World, project: string, row: Id, inRun: bool) {
    inRun && w.pending.Some? && w.pending.value.project == project && row !in RowsOf(w.pending.value.batch)
  }

  /** How many rows stand in the way: those at or before the weighted time, where a pending
      batch ahead of the row counts in full even if some of its rows are gone by now. */
  ghost function Budget(cfg: Settings, w: World, project: string, row: Id, weight: Time, inRun: bool): nat {
    if AheadPending(w, project, row, inRun)
    then |AheadOf(w.db, project, weight) - RowsOf(w.pending.value.batch)| + PolicyOf(cfg, project).batch
    else Rank(w.db, project, weight)
  }

  /** A pending batch ahead of the row is a full one. */
  ghost predicate FullPending(cfg: Settings, w: World, project: string, row: Id, inRun: bool) {
    AheadPending(w, project, row, inRun) ==> |RowsOf(w.pending.value.batch)| == PolicyOf(cfg, project).batch
  }

  lemma HeadHolds(cfg: Settings, db: Db, project: string, order: seq<Id>, row: Id) returns (j: nat)
    requires Listing(db, project, order) && row in db.rows && db.rows[row].project == project
    ensures var head := Take(Entries(db, order), PolicyOf(cfg, project).batch);
            && j < |order| && order[j] == row
            && (j < |head| || |head| == PolicyOf(cfg, project).batch)
            && forall i :: 0 <= i < |head| ==> head[i] == EntryOf(db, order[i])
  {
    j :| 0 <= j < |order| && order[j] == row;
  }

  /** Read outside the cooldown while the row is ripe, a batch holds the row or is a full
      batch of different rows at or before it. */
  lemma ReadIsFull(cfg: Settings, db: Db, project: string, order: seq<Id>, now: Time, clock: nat -> Time, row: Id)
    requires Listing(db, project, order) && Due(cfg, db, project, now) && forall i :: now <= clock(i)
    requires row in db.rows && db.rows[row].project == project
    requires Ripe(EntryOf(db, row), PolicyOf(cfg, project).window, now) && PolicyOf(cfg, project).batch >= 1
    ensures Chosen(cfg, db, project, order, now, clock) != []
    ensures var rows := RowsOf(Chosen(cfg, db, project, order, now, clock));
            row in rows
            || (|rows| == PolicyOf(cfg, project).batch && rows <= AheadOf(db, project, Weighted(db.rows[row])))
  {
    var policy := PolicyOf(cfg, project);
    var head := Take(Entries(db, order), policy.batch);
    var batch := Chosen(cfg, db, project, order, now, clock);
    var j := HeadHolds(cfg, db, project, order, row);
    if j < |head| {
      assert now <= clock(j);
      PickedMember(head, |head|, policy.window, clock, head[j]);
      var k :| 0 <= k < |batch| && batch[k] == head[j];
    } else {
      FullBatchAhead(db, project, order, policy.batch, j, head, policy.window, now, clock);
    }
  }

  lemma FullBatchAhead(db: Db, project: string, order: seq<Id>, n: nat, j: nat, head: seq<Entry>, window: Time,
                       now: Time, clock: nat -> Time)
    requires Listing(db, project, order) && n <= j < |order| && |head| == n && forall i :: now <= clock(i)
    requires forall i :: 0 <= i < n ==> head[i] == EntryOf(db, order[i])
    requires Ripe(EntryOf(db, order[j]), window, now)
    ensures Picked(head, n, window, clock) == head
    ensures |RowsOf(head)| == n && RowsOf(head) <= AheadOf(db, project, Weighted(db.rows[order[j]]))
  {
    forall i: nat | i < n ensures Ripe(head[i], window, clock(i)) {
      assert Weighted(db.rows[order[i]]) <= Weighted(db.rows[order[j]]) && now <= clock(i);
    }
    AllPicked(head, n, window, clock);
    assert head[..n] == head;
    PrefixSize(order, n);
    assert RowsOf(head) == FirstOf(order, n) by {
      forall i | 0 <= i < n ensures head[i].id == order[i] {}
    }
    forall i | 0 <= i < n ensures order[i] in AheadOf(db, project, Weighted(db.rows[order[j]])) {
      assert Weighted(db.rows[order[i]]) <= Weighted(db.rows[order[j]]);
    }
  }

  // ---------- one action ----------

  /** Whether an action commits a batch of the project that was read in the run. */
  predicate Counts(w: World, a: Action, project: string, inRun: bool) {
    a.Commit? && inRun && w.pending.Some? && w.pending.value.project == project
  }

  lemma RemoveSome(ahead: set<Id>, rows: set<Id>, n: nat)
    requires |rows| == n
    ensures |ahead| <= |ahead - rows| + n
    ensures rows <= ahead ==> |ahead| == |ahead - rows| + n
  {
    assert ahead == (ahead - rows) + ahead * rows;
    SubsetSize(ahead * rows, rows);
    if rows <= ahead { assert ahead * rows == rows; }
  }

  lemma SnapshotBudget(cfg: Settings, w: World, a: Action, row: Id, inRun: bool)
    requires a.Snapshot? && Can(w, a) && row in w.db.rows
    requires PolicyOf(cfg, w.db.rows[row].project).batch >= 1
    requires Ripe(EntryOf(w.db, row), PolicyOf(cfg, w.db.rows[row].project).window, a.now)
    ensures var project, weight := w.db.rows[row].project, Weighted(w.db.rows[row]);
            && FullPending(cfg, Do(cfg, w, a), project, row, true)
            && Budget(cfg, Do(cfg, w, a), project, row, weight, true) == Budget(cfg, w, project, row, weight, inRun)
  {
    var project, weight := w.db.rows[row].project, Weighted(w.db.rows[row]);
    var next := Do(cfg, w, a);
    if AheadPending(next, project, row, true) {
      ChosenFacts(cfg, w.db, project, a.order, a.now, a.clock);
      ReadIsFull(cfg, w.db, project, a.order, a.now, a.clock, row);
      RemoveSome(AheadOf(w.db, project, weight), RowsOf(next.pending.value.batch), PolicyOf(cfg, project).batch);
    }
  }

  lemma CommitClears(cfg: Settings, w: World, a: Action, project: string, weight: Time)
    requires SplitInv(w) && a.Commit? && Can(w, a)
    ensures AheadOf(Do(cfg, w, a).db, project, weight)
         == AheadOf(w.db, project, weight) - RowsOf(w.pending.value.batch)
    ensures Do(cfg, w, a).db.rows.Keys == w.db.rows.Keys - RowsOf(w.pending.value.batch)
  {
    var p := w.pending.value;
    assert p.batch[0].userId in UsersOf(p.batch);
    CommitFacts(w.db, p.project, p.batch, a.at);
  }

  lemma CommitBudget(cfg: Settings, w: World, a: Action, project: string, row: Id, weight: Time, inRun: bool)
    requires SplitInv(w) && a.Commit? && Can(w, a) && row in Do(cfg, w, a).db.rows
    ensures Budget(cfg, Do(cfg, w, a), project, row, weight, inRun)
          + (if Counts(w, a, project, inRun) then PolicyOf(cfg, project).batch else 0)
         <= Budget(cfg, w, project, row, weight, inRun)
  {
    CommitClears(cfg, w, a, project, weight);
    SubsetSize(AheadOf(Do(cfg, w, a).db, project, weight), AheadOf(w.db, project, weight));
  }

  lemma OtherBudget(cfg: Settings, w: World, e: Event, project: string, row: Id, weight: Time, inRun: bool)
    requires Can(w, Other(e)) && e.at > weight
    ensures Budget(cfg, Do(cfg, w, Other(e)), project, row, weight, inRun)
         <= Budget(cfg, w, project, row, weight, inRun)
  {
    NoneJoinsAhead(cfg, w.db, e, project, weight);
    var after, before := AheadOf(Apply(cfg, w.db, e), project, weight), AheadOf(w.db, project, weight);
    SubsetSize(after, before);
    if w.pending.Some? {
      SubsetSize(after - RowsOf(w.pending.value.batch), before - RowsOf(w.pending.value.batch));
    }
  }

  /** Whether the batch pending after an action, if any, was read in the run. */
  predicate FreshAfter(a: Action, inRun: bool) {
    inRun || a.Snapshot?
  }

  /** While the row stays, no action adds to its budget, and each batch counted takes a full
      batch off. */
  lemma BudgetStep(cfg: Settings, w: World, a: Action, clock: Time, row: Id, inRun: bool)
    requires SplitInv(w) && Can(w, a) && row in w.db.rows && row in Do(cfg, w, a).db.rows
    requires var policy := PolicyOf(cfg, w.db.rows[row].project);
             policy.batch >= 1 && Ripe(EntryOf(w.db, row), policy.window, clock)
    requires clock <= ClockOf(a, clock) && (a.Other? ==> a.e.at > Weighted(w.db.rows[row]))
    requires FullPending(cfg, w, w.db.rows[row].project, row, inRun)
    ensures var project, weight := w.db.rows[row].project, Weighted(w.db.rows[row]);
            && FullPending(cfg, Do(cfg, w, a), project, row, FreshAfter(a, inRun))
            && Budget(cfg, Do(cfg, w, a), project, row, weight, FreshAfter(a, inRun))
               + (if Counts(w, a, project, inRun) then PolicyOf(cfg, project).batch else 0)
               <= Budget(cfg, w, project, row, weight, inRun)
  {
    var project, weight := w.db.rows[row].project, Weighted(w.db.rows[row]);
    match a
    case Other(e) => OtherBudget(cfg, w, e, project, row, weight, inRun);
    case Snapshot(_, _, _, _) => SnapshotBudget(cfg, w, a, row, inRun);
    case Commit(_, _) => CommitBudget(cfg, w, a, project, row, weight, inRun);
    case Abandon =>
      if AheadPending(w, project, row, inRun) {
        RemoveSome(AheadOf(w.db, project, weight), RowsOf(w.pending.value.batch), PolicyOf(cfg, project).batch);
      }
  }

  // ---------- runs ----------

  /** The batches of the project that a run both reads and commits. */
  ghost function BatchesRead(cfg: Settings, w: World, acts: seq<Action>, project: string, inRun: bool): nat
    requires Possible(cfg, w, acts)
    decreases |acts|
  {
    if acts == [] then 0
    else
      var rest := BatchesRead(cfg, Do(cfg, w, acts[0]), acts[1..], project, FreshAfter(acts[0], inRun));
      if Counts(w, acts[0], project, inRun) then rest + 1 else rest
  }

  /** They are all the batches a run commits for the project, but for one pending before it. */
  lemma {:induction false} BatchesReadAreLogged(cfg: Settings, w: World, acts: seq<Action>, project: string,
                                                inRun: bool)
    requires Possible(cfg, w, acts) && (inRun || w.pending.None?)
    ensures BatchesRead(cfg, w, acts, project, inRun) == |Log(cfg, w, acts, project)|
    decreases |acts|
  {
    if acts != [] {
      BatchesReadAreLogged(cfg, Do(cfg, w, acts[0]), acts[1..], project, FreshAfter(acts[0], inRun));
    }
  }

  /** Rows never change, and an identifier once drawn and deleted never comes back. */
  lemma RowsStay(cfg: Settings, w: World, a: Action, row: Id)
    requires SplitInv(w) && Can(w, a) && row in w.issued
    ensures row in Do(cfg, w, a).issued
    ensures row in Do(cfg, w, a).db.rows ==> row in w.db.rows && Do(cfg, w, a).db.rows[row] == w.db.rows[row]
  {
    match a
    case Other(e) => OtherFrame(cfg, w.db, e);
    case Commit(_, at) => CommitShrinks(w.db, w.pending.value.project, w.pending.value.batch, at);
    case _ =>
  }

  lemma {:induction false} GoneForGood(cfg: Settings, w: World, acts: seq<Action>, row: Id)
    requires SplitInv(w) && Possible(cfg, w, acts) && row in w.issued && row !in w.db.rows
    ensures row !in After(cfg, w, acts).db.rows
    decreases |acts|
  {
    if acts != [] {
      RowsStay(cfg, w, acts[0], row);
      DoKeepsSplitInv(cfg, w, acts[0]);
      GoneForGood(cfg, Do(cfg, w, acts[0]), acts[1..], row);
    }
  }

  /** The rows those batches remove: a full batch each. */
  ghost function Removed(cfg: Settings, w: World, acts: seq<Action>, project: string, inRun: bool): nat
    requires Possible(cfg, w, acts)
    decreases |acts|
  {
    if acts == [] then 0
    else
      var rest := Removed(cfg, Do(cfg, w, acts[0]), acts[1..], project, FreshAfter(acts[0], inRun));
      if Counts(w, acts[0], project, inRun) then rest + PolicyOf(cfg, project).batch else rest
  }

  lemma {:induction false} RemovedInBatches(cfg: Settings, w: World, acts: seq<Action>, project: string, inRun: bool)
    requires Possible(cfg, w, acts)
    ensures Removed(cfg, w, acts, project, inRun)
         == PolicyOf(cfg, project).batch * BatchesRead(cfg, w, acts, project, inRun)
    decreases |acts|
  {
    if acts != [] {
      var next, later := Do(cfg, w, acts[0]), FreshAfter(acts[0], inRun);
      RemovedInBatches(cfg, next, acts[1..], project, later);
      OneMore(PolicyOf(cfg, project).batch, BatchesRead(cfg, next, acts[1..], project, later));
    }
  }

  lemma OneMore(batch: nat, n: nat)
    ensures batch * (n + 1) == batch * n + batch
  {
  }

  /** A time recorded once a row is ripe is later than the row's own. */
  lemma LaterThanRipe(res: Time, window: Time, weight: Time, clock: Time, e: Event)
    requires 0 < res <= window && clock - weight >= window && clock <= e.now && e.at == Trunc(res, e.now)
    ensures e.at > weight
  {
    RipeBeatsNew(res, window);
    assert RecordedLater(res, window, weight, e.now);
  }

  lemma OthersLater(res: Time, acts: seq<Action>)
    requires res > 0 && acts != [] && OthersRecorded(res, acts)
    ensures OthersRecorded(res, acts[1..]) && (acts[0].Other? ==> acts[0].e.at == Trunc(res, acts[0].e.now))
  {
  }

  lemma RipeStays(cfg: Settings, w: World, a: Action, clock: Time, row: Id)
    requires SplitInv(w) && Can(w, a) && row in w.db.rows && row in Do(cfg, w, a).db.rows
    requires Ripe(EntryOf(w.db, row), PolicyOf(cfg, w.db.rows[row].project).window, clock)
    requires clock <= ClockOf(a, clock)
    ensures Do(cfg, w, a).db.rows[row] == w.db.rows[row]
    ensures Ripe(EntryOf(Do(cfg, w, a).db, row), PolicyOf(cfg, w.db.rows[row].project).window, ClockOf(a, clock))
  {
    RowsStay(cfg, w, a, row);
  }

  lemma {:induction false} BudgetOverRun(cfg: Settings, res: Time, w: World, clock: Time, acts: seq<Action>, row: Id,
                                         inRun: bool)
    requires res > 0 && SplitInv(w) && Possible(cfg, w, acts) && Timed(res, clock, acts) && OthersRecorded(res, acts)
    requires row in w.db.rows && row in After(cfg, w, acts).db.rows
    requires var policy := PolicyOf(cfg, w.db.rows[row].project);
             && policy.batch >= 1 && policy.window >= res && Ripe(EntryOf(w.db, row), policy.window, clock)
    requires FullPending(cfg, w, w.db.rows[row].project, row, inRun)
    ensures var project, weight := w.db.rows[row].project, Weighted(w.db.rows[row]);
            1 + Removed(cfg, w, acts, project, inRun) <= Budget(cfg, w, project, row, weight, inRun)
    decreases |acts|
  {
    var project, weight := w.db.rows[row].project, Weighted(w.db.rows[row]);
    if acts == [] {
      RankPositive(w.db, row);
    } else {
      var a, next := acts[0], Do(cfg, w, acts[0]);
      RowsStay(cfg, w, a, row);
      DoKeepsSplitInv(cfg, w, a);
      if row !in next.db.rows { GoneForGood(cfg, next, acts[1..], row); }
      if a.Other? {
        LaterThanRipe(res, PolicyOf(cfg, project).window, weight, clock, a.e);
      }
      BudgetStep(cfg, w, a, clock, row, inRun);
      RipeStays(cfg, w, a, clock, row);
      OthersLater(res, acts);
      BudgetOverRun(cfg, res, next, ClockOf(a, clock), acts[1..], row, FreshAfter(a, inRun));
    }
  }

  /** No starvation in split runs: once ripe, a row is gone when its project has read and
      committed ceil(rank / batch) batches since, whatever other transactions, deletions and
      abandoned batches come in between. */
  lemma SplitNoStarvation(cfg: Settings, res: Time, w: World, clock: Time, acts: seq<Action>, row: Id)
    requires res > 0 && SplitInv(w) && Possible(cfg, w, acts) && Timed(res, clock, acts) && OthersRecorded(res, acts)
    requires row in w.db.rows
    requires var policy := PolicyOf(cfg, w.db.rows[row].project);
             && policy.batch >= 1 && policy.window >= res && Ripe(EntryOf(w.db, row), policy.window, clock)
    ensures var project, batch := w.db.rows[row].project, PolicyOf(cfg, w.db.rows[row].project).batch;
            BatchesRead(cfg, w, acts, project, false)
            >= (Rank(w.db, project, Weighted(w.db.rows[row])) + batch - 1) / batch ==>
              row !in After(cfg, w, acts).db.rows
  {
    var project, batch := w.db.rows[row].project, PolicyOf(cfg, w.db.rows[row].project).batch;
    if row in After(cfg, w, acts).db.rows {
      BudgetOverRun(cfg, res, w, clock, acts, row, false);
      RemovedInBatches(cfg, w, acts, project, false);
      CeilTimes(Rank(w.db, project, Weighted(w.db.rows[row])), batch, BatchesRead(cfg, w, acts, project, false));
    }
  }
}
