/** What a turn of the scheduler does to the tables, in the columns and the settings of the
    project themselves. */
module TurnEffect {
  import opened Tables
  import opened Selection
  import opened Lifecycle
  import opened Scheduler
  import opened SplitScheduler

  /** When an entry has waited the window out: created_at - weight * 1h lies that far back. */
  predicate Waited(row: Row, window: Time, now: Time) {
    now - (row.createdAt - row.weight * 3_600_000_000_000) >= window
  }

  /** The project's rows that have waited the window out. */
  function WaitedRows(db: Db, project: string, window: Time, now: Time): set<Id> {
    set r | r in db.rows && db.rows[r].project == project && Waited(db.rows[r], window, now)
  }

  /** The project is past its cooldown. */
  predicate Cooled(db: Db, project: string, window: Time, now: Time) {
    var key := Stamp(project, "waitlist_last_success");
    key in db.stamps ==> now - db.stamps[key] >= window
  }

  /** The turn takes at most a batch of the project's rows, each past the window at some
      reading of the loop, gives exactly their owners access, stamps the project if it took
      any, and changes nothing else. */
  ghost predicate TookBatch(db: Db, after: Db, project: string, batch: nat, window: Time, now: Time,
                            clock: nat -> Time, at: Time) {
    && RowsTaken(db, after, project, batch, window, clock)
    && (db.rows.Keys - after.rows.Keys != {} ==> Cooled(db, project, window, now))
    && StampSet(db, after, project, at)
    && OwnersAdmitted(db, after, at)
  }

  ghost predicate RowsTaken(db: Db, after: Db, project: string, batch: nat, window: Time, clock: nat -> Time) {
    && |db.rows.Keys - after.rows.Keys| <= batch
    && (forall r :: r in after.rows ==> r in db.rows && after.rows[r] == db.rows[r])
    && (forall r :: r in db.rows.Keys - after.rows.Keys ==>
          db.rows[r].project == project && exists i: nat :: i < batch && Waited(db.rows[r], window, clock(i)))
  }

  ghost predicate StampSet(db: Db, after: Db, project: string, at: Time) {
    after.stamps == if db.rows.Keys - after.rows.Keys == {} then db.stamps
                    else db.stamps[Stamp(project, "waitlist_last_success") := at]
  }

  ghost predicate OwnersAdmitted(db: Db, after: Db, at: Time) {
    && after.users.Keys == db.users.Keys
    && forall u :: u in db.users ==>
         after.users[u] == if exists r :: r in db.rows.Keys - after.rows.Keys && db.rows[r].userId == u
                           then db.users[u].(hasAccess := true, grantedAt := Some(at), grantedBy := Some("scheduler"),
                                  revokedAt := None, revokedBy := None, revokeReason := None)
                           else db.users[u]
  }

  /** Past the cooldown it takes a full batch, or at least all rows past the window. */
  ghost predicate TookEnough(db: Db, after: Db, project: string, batch: nat, window: Time, now: Time) {
    Cooled(db, project, window, now) ==>
      var gone, ripe := |db.rows.Keys - after.rows.Keys|, |WaitedRows(db, project, window, now)|;
      gone >= if ripe < batch then ripe else batch
  }

  /** Nobody left behind is strictly older than somebody taken. */
  ghost predicate TookOldest(db: Db, after: Db, project: string) {
    forall r, q :: r in db.rows.Keys - after.rows.Keys && q in after.rows && after.rows[q].project == project ==>
      db.rows[r].createdAt - db.rows[r].weight * 3_600_000_000_000
      <= after.rows[q].createdAt - after.rows[q].weight * 3_600_000_000_000
  }

  /** The batch size and the window in force: the project's own where it has them. */
  predicate InForce(cfg: Settings, project: string, batch: nat, window: Time) {
    && project in cfg.projects && !cfg.projects[project].disabled
    && batch == (match cfg.projects[project].batch case Some(b) => b case None => cfg.batch)
    && window == (match cfg.projects[project].window case Some(w) => w case None => cfg.window)
  }

  predicate SwitchedOff(cfg: Settings, project: string) {
    project !in cfg.projects || cfg.projects[project].disabled
  }

  // ---------- what the model's turn does ----------

  lemma ForcePolicy(cfg: Settings, project: string, batch: nat, window: Time)
    requires InForce(cfg, project, batch, window)
    ensures PolicyOf(cfg, project) == Policy(batch, window, false)
  {
  }

  lemma ForceIsTotal(cfg: Settings, project: string) returns (batch: nat, window: Time)
    ensures SwitchedOff(cfg, project) || InForce(cfg, project, batch, window)
  {
    batch, window := PolicyOf(cfg, project).batch, PolicyOf(cfg, project).window;
  }

  lemma ChosenSizes(cfg: Settings, db: Db, project: string, order: seq<Id>, now: Time, clock: nat -> Time)
    requires Listing(db, project, order)
    ensures var rows := RowsOf(Chosen(cfg, db, project, order, now, clock));
            |rows| == |Chosen(cfg, db, project, order, now, clock)| <= PolicyOf(cfg, project).batch
  {
    ChosenFacts(cfg, db, project, order, now, clock);
    var policy := PolicyOf(cfg, project);
    var head := Take(Entries(db, order), policy.batch);
    if Due(cfg, db, project, now) {
      PickedIdsDiffer(head, |head|, policy.window, clock);
    } else {
      assert RowsOf([]) == {};
    }
  }

  lemma {:induction false} PickedIdsDiffer(es: seq<Entry>, n: nat, window: Time, clock: nat -> Time)
    requires n <= |es| && forall i, j :: 0 <= i < j < |es| ==> es[i].id != es[j].id
    ensures |RowsOf(Picked(es, n, window, clock))| == |Picked(es, n, window, clock)|
    ensures forall r :: r in RowsOf(Picked(es, n, window, clock)) ==> exists i :: 0 <= i < n && es[i].id == r
  {
    if n == 0 {
      assert RowsOf([]) == {};
    } else {
      PickedIdsDiffer(es, n - 1, window, clock);
      var rest, last := Picked(es, n - 1, window, clock), es[n - 1];
      if Ripe(last, window, clock(n - 1)) {
        assert RowsOf(rest + [last]) == RowsOf(rest) + {last.id} by { RowsOfSnoc(rest, last); }
        assert last.id !in RowsOf(rest);
      }
    }
  }

  lemma RowsOfSnoc(es: seq<Entry>, e: Entry)
    ensures RowsOf(es + [e]) == RowsOf(es) + {e.id}
  {
    forall r | r in RowsOf(es) + {e.id} ensures r in RowsOf(es + [e]) {
      if r in RowsOf(es) {
        var i :| 0 <= i < |es| && es[i].id == r;
        assert (es + [e])[i].id == r;
      } else {
        assert (es + [e])[|es|].id == r;
      }
    }
  }

  /** An entry chosen waited the window out at its own reading. */
  lemma ChosenWaited(cfg: Settings, db: Db, project: string, order: seq<Id>, now: Time, clock: nat -> Time, r: Id)
    requires Listing(db, project, order) && r in RowsOf(Chosen(cfg, db, project, order, now, clock))
    ensures r in db.rows && exists i: nat ::
              i < PolicyOf(cfg, project).batch && Waited(db.rows[r], PolicyOf(cfg, project).window, clock(i))
  {
    var policy := PolicyOf(cfg, project);
    var head := Take(Entries(db, order), policy.batch);
    var batch := Chosen(cfg, db, project, order, now, clock);
    var k :| 0 <= k < |batch| && batch[k].id == r;
    PickedMember(head, |head|, policy.window, clock, batch[k]);
    var i: nat :| i < |head| && head[i] == batch[k] && Ripe(batch[k], policy.window, clock(i));
    assert head[i] == EntryOf(db, order[i]);
    assert Waited(db.rows[r], policy.window, clock(i));
  }

  lemma BatchEffect(db: Db, project: string, batch: seq<Entry>, at: Time)
    requires Schema(db) && batch != [] && Current(db, batch)
    ensures var after := CommitBatch(db, project, batch, at);
            && db.rows.Keys - after.rows.Keys == RowsOf(batch) != {}
            && (forall r :: r in after.rows ==> r in db.rows && after.rows[r] == db.rows[r])
            && StampSet(db, after, project, at) && OwnersAdmitted(db, after, at)
  {
    var after := CommitBatch(db, project, batch, at);
    assert OwnerAgrees(db, db.rows[batch[0].id]) && batch[0].userId in UsersOf(batch) && batch[0].id in RowsOf(batch);
    CommitFacts(db, project, batch, at);
    assert db.rows.Keys - after.rows.Keys == RowsOf(batch);
    forall u ensures u in UsersOf(batch) <==> exists r :: r in RowsOf(batch) && db.rows[r].userId == u {
      OwnersOfBatch(db, batch, u);
    }
  }

  lemma OwnersOfBatch(db: Db, batch: seq<Entry>, u: Id)
    requires Current(db, batch)
    ensures u in UsersOf(batch) <==> exists r :: r in RowsOf(batch) && db.rows[r].userId == u
  {
    if u in UsersOf(batch) {
      var i :| 0 <= i < |batch| && batch[i].userId == u;
      assert batch[i].id in RowsOf(batch) && db.rows[batch[i].id].userId == u;
    }
  }

  /** What a turn of the split scheduler's batch leaves when it is committed at once. */
  ghost function TurnDb(cfg: Settings, db: Db, project: string, order: seq<Id>, now: Time, clock: nat -> Time,
                        at: Time): Db
    requires Listing(db, project, order)
  {
    var batch := Chosen(cfg, db, project, order, now, clock);
    if batch == [] then db else CommitBatch(db, project, batch, at)
  }

  lemma ChosenRows(cfg: Settings, db: Db, project: string, order: seq<Id>, now: Time, clock: nat -> Time)
    requires Listing(db, project, order)
    ensures var policy, rows := PolicyOf(cfg, project), RowsOf(Chosen(cfg, db, project, order, now, clock));
            && |rows| <= policy.batch
            && forall r :: r in rows ==>
                 && r in db.rows && db.rows[r].project == project
                 && exists i: nat :: i < policy.batch && Waited(db.rows[r], policy.window, clock(i))
  {
    ChosenFacts(cfg, db, project, order, now, clock);
    ChosenSizes(cfg, db, project, order, now, clock);
    forall r | r in RowsOf(Chosen(cfg, db, project, order, now, clock))
      ensures r in db.rows && exists i: nat ::
                i < PolicyOf(cfg, project).batch && Waited(db.rows[r], PolicyOf(cfg, project).window, clock(i))
    {
      ChosenWaited(cfg, db, project, order, now, clock, r);
    }
  }

  lemma CommitTakes(db: Db, project: string, es: seq<Entry>, batch: nat, window: Time, now: Time, clock: nat -> Time,
                    at: Time)
    requires Schema(db) && es != [] && Current(db, es) && |RowsOf(es)| <= batch && Cooled(db, project, window, now)
    requires forall r :: r in RowsOf(es) ==>
               && r in db.rows && db.rows[r].project == project
               && exists i: nat :: i < batch && Waited(db.rows[r], window, clock(i))
    ensures TookBatch(db, CommitBatch(db, project, es, at), project, batch, window, now, clock, at)
  {
    var after := CommitBatch(db, project, es, at);
    BatchEffect(db, project, es, at);
    assert RowsTaken(db, after, project, batch, window, clock);
  }

  lemma TurnTakes(cfg: Settings, db: Db, project: string, order: seq<Id>, now: Time, clock: nat -> Time, at: Time,
                  batch: nat, window: Time)
    requires Schema(db) && Listing(db, project, order) && InForce(cfg, project, batch, window)
    ensures TookBatch(db, TurnDb(cfg, db, project, order, now, clock, at), project, batch, window, now, clock, at)
  {
    var es := Chosen(cfg, db, project, order, now, clock);
    if es == [] {
      NothingTaken(db, project, batch, window, now, clock, at);
    } else {
      ForcePolicy(cfg, project, batch, window);
      ChosenRows(cfg, db, project, order, now, clock);
      ChosenFacts(cfg, db, project, order, now, clock);
      CommitTakes(db, project, es, batch, window, now, clock, at);
    }
  }

  lemma NothingTaken(db: Db, project: string, batch: nat, window: Time, now: Time, clock: nat -> Time, at: Time)
    ensures TookBatch(db, db, project, batch, window, now, clock, at) && TookOldest(db, db, project)
  {
    assert db.rows.Keys - db.rows.Keys == {};
  }

  /** A row past the window at the first reading is taken, or a full batch is. */
  lemma RipeOrFull(cfg: Settings, db: Db, project: string, order: seq<Id>, now: Time, clock: nat -> Time)
    requires Listing(db, project, order) && Due(cfg, db, project, now) && forall i :: now <= clock(i)
    ensures var rows := RowsOf(Chosen(cfg, db, project, order, now, clock));
            var ripe := WaitedRows(db, project, PolicyOf(cfg, project).window, now);
            |rows| >= if |ripe| < PolicyOf(cfg, project).batch then |ripe| else PolicyOf(cfg, project).batch
  {
    var policy := PolicyOf(cfg, project);
    var rows := RowsOf(Chosen(cfg, db, project, order, now, clock));
    var ripe := WaitedRows(db, project, policy.window, now);
    if |rows| < policy.batch {
      forall r | r in ripe ensures r in rows {
        RipeIsTaken(cfg, db, project, order, now, clock, r);
      }
      SubsetSize(ripe, rows);
    }
  }

  lemma RipeIsTaken(cfg: Settings, db: Db, project: string, order: seq<Id>, now: Time, clock: nat -> Time, r: Id)
    requires Listing(db, project, order) && Due(cfg, db, project, now) && forall i :: now <= clock(i)
    requires r in WaitedRows(db, project, PolicyOf(cfg, project).window, now)
    requires |RowsOf(Chosen(cfg, db, project, order, now, clock))| < PolicyOf(cfg, project).batch
    ensures r in RowsOf(Chosen(cfg, db, project, order, now, clock))
  {
    var policy := PolicyOf(cfg, project);
    var head := Take(Entries(db, order), policy.batch);
    var j: nat :| j < |order| && order[j] == r;
    if j < |head| {
      assert head[j] == EntryOf(db, r) && now <= clock(j);
      PickedMember(head, |head|, policy.window, clock, head[j]);
      var batch := Chosen(cfg, db, project, order, now, clock);
      var k :| 0 <= k < |batch| && batch[k] == head[j];
    } else {
      forall i: nat | i < |head| ensures Ripe(head[i], policy.window, clock(i)) {
        assert head[i] == EntryOf(db, order[i]) && Weighted(db.rows[order[i]]) <= Weighted(db.rows[order[j]]);
        assert now <= clock(i);
      }
      AllPicked(head, |head|, policy.window, clock);
      assert head[..|head|] == head;
      ChosenSizes(cfg, db, project, order, now, clock);
    }
  }

  lemma TurnTakesEnough(cfg: Settings, db: Db, project: string, order: seq<Id>, now: Time, clock: nat -> Time, at: Time,
                        batch: nat, window: Time)
    requires Schema(db) && Listing(db, project, order) && InForce(cfg, project, batch, window)
    requires forall i :: now <= clock(i)
    ensures TookEnough(db, TurnDb(cfg, db, project, order, now, clock, at), project, batch, window, now)
  {
    ForcePolicy(cfg, project, batch, window);
    var es := Chosen(cfg, db, project, order, now, clock);
    if Cooled(db, project, window, now) {
      RipeOrFull(cfg, db, project, order, now, clock);
      ChosenFacts(cfg, db, project, order, now, clock);
      if es != [] { BatchEffect(db, project, es, at); } else { assert RowsOf(es) == {}; }
    }
  }

  /** With one reading for all entries the oldest are taken. */
  lemma TurnTakesOldest(cfg: Settings, db: Db, project: string, order: seq<Id>, now: Time, clock: nat -> Time, at: Time)
    requires Schema(db) && Listing(db, project, order) && forall i :: clock(i) == now
    ensures TookOldest(db, TurnDb(cfg, db, project, order, now, clock, at), project)
  {
    var e := Event(now, at, Tick(project, order));
    ChosenIsBatch(cfg, db, project, order, now, clock);
    var after := TurnDb(cfg, db, project, order, now, clock, at);
    assert after == Apply(cfg, db, e);
    forall r, q | r in db.rows.Keys - after.rows.Keys && q in after.rows && after.rows[q].project == project
      ensures Weighted(db.rows[r]) <= Weighted(after.rows[q])
    {
      SelectionIsFair(cfg, db, e, r);
    }
  }

  lemma TurnMoves(cfg: Settings, db: Db, project: string, order: seq<Id>, now: Time, clock: nat -> Time, at: Time)
    requires Schema(db) && Listing(db, project, order)
    ensures Chosen(cfg, db, project, order, now, clock) != []
       <==> db.rows.Keys - TurnDb(cfg, db, project, order, now, clock, at).rows.Keys != {}
  {
    var es := Chosen(cfg, db, project, order, now, clock);
    ChosenFacts(cfg, db, project, order, now, clock);
    if es != [] { BatchEffect(db, project, es, at); } else { assert db.rows.Keys - db.rows.Keys == {}; }
  }

  lemma SwitchedOffTurn(cfg: Settings, db: Db, project: string, order: seq<Id>, now: Time, clock: nat -> Time, at: Time)
    requires Listing(db, project, order) && SwitchedOff(cfg, project)
    ensures TurnDb(cfg, db, project, order, now, clock, at) == db
  {
  }
}
