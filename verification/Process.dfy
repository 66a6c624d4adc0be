/** The scheduler process: one project per call, all projects per tick. */
module Process {
  import opened Tables
  import opened Selection
  import opened Lifecycle
  import opened Scheduler
  import opened SplitScheduler
  import opened TurnEffect
  import opened Database
  import opened Repositories

  datatype BatchCall = ReadStamp | ReadList | BeginTx | GrantCall | DeleteCall | StampCall | CommitTx

  /** One project's turn: the chosen entries are granted, deleted and stamped together if
      there are any and no call fails, and otherwise nothing changes. */
  method ProcessProject(store: Conn, cfg: Settings, project: string, now: Time, clock: nat -> Time, at: Time,
                        faults: set<BatchCall>) returns (done: bool, ghost order: seq<Id>)
    requires Schema(store.db)
    modifies store
    ensures Listing(old(store.db), project, order)
    ensures done <==> faults == {} && Chosen(cfg, old(store.db), project, order, now, clock) != []
    ensures store.db == if faults == {} then TurnDb(cfg, old(store.db), project, order, now, clock, at)
                        else old(store.db)
    ensures SwitchedOff(cfg, project) || faults != {} ==> store.db == old(store.db)
    ensures done <==> old(store.db).rows.Keys - store.db.rows.Keys != {}
    ensures forall batch, window :: InForce(cfg, project, batch, window) ==>
              && TookBatch(old(store.db), store.db, project, batch, window, now, clock, at)
              && (faults == {} && (forall i :: now <= clock(i)) ==>
                    TookEnough(old(store.db), store.db, project, batch, window, now))
              && ((forall i :: clock(i) == now) ==> TookOldest(old(store.db), store.db, project))
  {
    TurnIsEffective(cfg, store.db, project, now, clock, at);
    TookNothing(store.db, project, now, clock, at);
    done := false;
    var policy := PolicyOf(cfg, project);
    var listed := OrderRows(store.db, project); // the order the database would list the rows in
    order := listed;
    if policy.disabled {
      return;
    }
    var last := GetLastSuccess(store, Stamp(project, WAITLIST_KEY), ReadStamp in faults);
    if last.Err? {
      return;
    }
    if last.value.Some? && now - last.value.value < policy.window {
      return;
    }
    done := PromoteRipe(store, cfg, project, listed, now, clock, at, faults);
  }

  lemma TurnIsEffective(cfg: Settings, db: Db, project: string, now: Time, clock: nat -> Time, at: Time)
    requires Schema(db)
    ensures forall order :: Listing(db, project, order) ==>
              var after := TurnDb(cfg, db, project, order, now, clock, at);
              && (SwitchedOff(cfg, project) ==> after == db)
              && (Chosen(cfg, db, project, order, now, clock) != [] <==> db.rows.Keys - after.rows.Keys != {})
              && (forall batch, window :: InForce(cfg, project, batch, window) ==>
                    && TookBatch(db, after, project, batch, window, now, clock, at)
                    && ((forall i :: now <= clock(i)) ==> TookEnough(db, after, project, batch, window, now))
                    && ((forall i :: clock(i) == now) ==> TookOldest(db, after, project)))
  {
    forall order | Listing(db, project, order)
      ensures var after := TurnDb(cfg, db, project, order, now, clock, at);
              && (SwitchedOff(cfg, project) ==> after == db)
              && (Chosen(cfg, db, project, order, now, clock) != [] <==> db.rows.Keys - after.rows.Keys != {})
              && (forall batch, window :: InForce(cfg, project, batch, window) ==>
                    && TookBatch(db, after, project, batch, window, now, clock, at)
                    && ((forall i :: now <= clock(i)) ==> TookEnough(db, after, project, batch, window, now))
                    && ((forall i :: clock(i) == now) ==> TookOldest(db, after, project)))
    {
      TurnMoves(cfg, db, project, order, now, clock, at);
      if SwitchedOff(cfg, project) { SwitchedOffTurn(cfg, db, project, order, now, clock, at); }
      forall batch, window | InForce(cfg, project, batch, window)
        ensures TookBatch(db, TurnDb(cfg, db, project, order, now, clock, at), project, batch, window, now, clock, at)
        ensures (forall i :: now <= clock(i)) ==>
                  TookEnough(db, TurnDb(cfg, db, project, order, now, clock, at), project, batch, window, now)
      {
        TurnTakes(cfg, db, project, order, now, clock, at, batch, window);
        if forall i :: now <= clock(i) {
          TurnTakesEnough(cfg, db, project, order, now, clock, at, batch, window);
        }
      }
      if forall i :: clock(i) == now { TurnTakesOldest(cfg, db, project, order, now, clock, at); }
    }
  }

  lemma TookNothing(db: Db, project: string, now: Time, clock: nat -> Time, at: Time)
    ensures TookOldest(db, db, project)
    ensures forall batch, window :: TookBatch(db, db, project, batch, window, now, clock, at)
  {
    forall batch, window ensures TookBatch(db, db, project, batch, window, now, clock, at) {
      NothingTaken(db, project, batch, window, now, clock, at);
    }
    NothingTaken(db, project, 0, 0, now, clock, at);
  }

  lemma ChosenIsPicked(cfg: Settings, db: Db, project: string, order: seq<Id>, now: Time, clock: nat -> Time)
    requires Listing(db, project, order) && Due(cfg, db, project, now)
    ensures var policy := PolicyOf(cfg, project);
            var page := Take(Drop(Entries(db, order), 0), policy.batch);
            Chosen(cfg, db, project, order, now, clock) == Picked(page, |page|, policy.window, clock)
  {
    assert Drop(Entries(db, order), 0) == Entries(db, order);
  }

  /** The query and the selection loop. */
  method ReadRipe(store: Conn, cfg: Settings, project: string, listed: seq<Id>, now: Time, clock: nat -> Time,
                  faults: set<BatchCall>) returns (ok: bool, users: seq<Id>, rows: seq<Id>)
    requires Listing(store.db, project, listed) && Due(cfg, store.db, project, now)
    ensures ok <==> ReadList !in faults
    ensures ok ==>
              var batch := Chosen(cfg, store.db, project, listed, now, clock);
              && |users| == |rows| == |batch|
              && forall i :: 0 <= i < |batch| ==> users[i] == batch[i].userId && rows[i] == batch[i].id
  {
    ok, users, rows := false, [], [];
    var policy := PolicyOf(cfg, project);
    var list := GetWithOffsetLimit(store, project, listed, None, Some(policy.batch), ReadList in faults);
    if list.Err? {
      return;
    }
    users, rows := SelectRipe(list.value, policy.window, clock);
    ChosenIsPicked(cfg, store.db, project, listed, now, clock);
    ok := true;
  }

  /** What a turn does outside the cooldown. */
  method PromoteRipe(store: Conn, cfg: Settings, project: string, listed: seq<Id>, now: Time, clock: nat -> Time,
                     at: Time, faults: set<BatchCall>) returns (done: bool)
    requires Schema(store.db) && Listing(store.db, project, listed) && Due(cfg, store.db, project, now)
    requires ReadStamp !in faults
    modifies store
    ensures done <==> faults == {} && Chosen(cfg, old(store.db), project, listed, now, clock) != []
    ensures var batch := Chosen(cfg, old(store.db), project, listed, now, clock);
            store.db == if done then CommitBatch(old(store.db), project, batch, at) else old(store.db)
  {
    done := false;
    var read, users, rows := ReadRipe(store, cfg, project, listed, now, clock, faults);
    if !read {
      return;
    }
    ghost var batch := Chosen(cfg, store.db, project, listed, now, clock);
    if |users| == 0 || BeginTx in faults {
      return;
    }
    ChosenIsReal(cfg, store.db, project, listed, now, clock);
    AllCalls(faults);
    done := PromoteInTx(store, project, batch, users, rows, at, faults);
  }

  /** When no entry ripens during it, a turn is the atomic scheduler step. */
  lemma TurnIsStep(cfg: Settings, db: Db, project: string, order: seq<Id>, now: Time, clock: nat -> Time, at: Time)
    requires Listing(db, project, order) && forall i :: now <= clock(i)
    requires Unripened(cfg, db, project, order, now, clock)
    ensures TurnDb(cfg, db, project, order, now, clock, at) == Apply(cfg, db, Event(now, at, Tick(project, order)))
  {
    ChosenIsBatch(cfg, db, project, order, now, clock);
  }

  lemma ChosenIsReal(cfg: Settings, db: Db, project: string, order: seq<Id>, now: Time, clock: nat -> Time)
    requires Schema(db) && Listing(db, project, order) && Chosen(cfg, db, project, order, now, clock) != []
    ensures exists u :: u in UsersOf(Chosen(cfg, db, project, order, now, clock)) && u in db.users
  {
    var policy := PolicyOf(cfg, project);
    var head := Take(Entries(db, order), policy.batch);
    var batch := Chosen(cfg, db, project, order, now, clock);
    PickedMember(head, |head|, policy.window, clock, batch[0]);
    assert batch[0] in batch;
    assert OwnerAgrees(db, db.rows[batch[0].id]) && batch[0].userId in UsersOf(batch);
  }

  lemma AllCalls(faults: set<BatchCall>)
    ensures faults <= {ReadStamp, ReadList, BeginTx, GrantCall, DeleteCall, StampCall, CommitTx}
  {
    forall f | f in faults ensures f in {ReadStamp, ReadList, BeginTx, GrantCall, DeleteCall, StampCall, CommitTx} {
      match f case ReadStamp => case ReadList => case BeginTx => case GrantCall => case DeleteCall =>
      case StampCall => case CommitTx =>
    }
  }

  /** The selection loop: users and rows of the entries ripe when it reaches them, side by
      side and in order. */
  method SelectRipe(entries: seq<Entry>, window: Time, clock: nat -> Time) returns (users: seq<Id>, rows: seq<Id>)
    ensures var picked := Picked(entries, |entries|, window, clock);
            && |users| == |rows| == |picked|
            && (forall i :: 0 <= i < |picked| ==> users[i] == picked[i].userId && rows[i] == picked[i].id)
  {
    users, rows := [], [];
    var i := 0;
    while i < |entries|
      invariant 0 <= i <= |entries|
      invariant var picked := Picked(entries, i, window, clock);
                && |users| == |rows| == |picked|
                && (forall k :: 0 <= k < |picked| ==> users[k] == picked[k].userId && rows[k] == picked[k].id)
    {
      var entry := entries[i];
      if clock(i) - entry.weightedAt >= window {
        users := users + [entry.userId];
        rows := rows + [entry.id];
      }
      i := i + 1;
    }
  }

  method PromoteInTx(store: Conn, project: string, ghost batch: seq<Entry>, users: seq<Id>, rows: seq<Id>, at: Time,
                     faults: set<BatchCall>)
    returns (done: bool)
    requires |users| == |rows| == |batch| > 0
    requires forall i :: 0 <= i < |batch| ==> users[i] == batch[i].userId && rows[i] == batch[i].id
    requires exists u :: u in UsersOf(batch) && u in store.db.users
    modifies store
    ensures done <==> faults !! {GrantCall, DeleteCall, StampCall, CommitTx}
    ensures store.db == if done then CommitBatch(old(store.db), project, batch, at) else old(store.db)
  {
    assert IdSet(users) == UsersOf(batch) && IdSet(rows) == RowsOf(batch);
    var tx := new Tx.Begin(store);
    done := false;
    var granted := GrantAccessTx(tx.work, users, "scheduler", at, GrantCall in faults);
    if granted.Ok? {
      var deleted := DeleteByIDsTx(tx.work, rows, DeleteCall in faults);
      if deleted.Ok? {
        var stamped := UpdateLastSuccess(tx.work, Stamp(project, WAITLIST_KEY), at, StampCall in faults);
        if stamped.Ok? {
          done := tx.Commit(CommitTx in faults);
        }
      }
    }
    tx.Rollback();
  }

  // ---------- all projects ----------

  /** The readings of one project's turn, `now` for the cooldown and `clock` for each entry,
      its recorded time, and the calls that fail. */
  datatype Turn = Turn(now: Time, clock: nat -> Time, at: Time, faults: set<BatchCall>)

  /** What one project's turn leaves; it changes nothing if any call fails. */
  ghost function AfterTurn(cfg: Settings, db: Db, project: string, turn: Turn, order: seq<Id>): Db {
    if turn.faults == {} && Listing(db, project, order)
    then TurnDb(cfg, db, project, order, turn.now, turn.clock, turn.at)
    else db
  }

  /** What the turns of several projects leave, one after the other. */
  ghost function AfterTurns(cfg: Settings, db: Db, projects: seq<string>, turns: seq<Turn>, orders: seq<seq<Id>>): Db
    requires |projects| == |turns| == |orders|
  {
    if projects == [] then db
    else
      var n := |projects| - 1;
      AfterTurn(cfg, AfterTurns(cfg, db, projects[..n], turns[..n], orders[..n]), projects[n], turns[n], orders[n])
  }

  lemma AfterTurnsNext(cfg: Settings, db: Db, projects: seq<string>, turns: seq<Turn>, orders: seq<seq<Id>>,
                       order: seq<Id>)
    requires |projects| == |turns| && |orders| < |projects|
    ensures var i := |orders|;
            AfterTurns(cfg, db, projects[..i + 1], turns[..i + 1], orders + [order])
            == AfterTurn(cfg, AfterTurns(cfg, db, projects[..i], turns[..i], orders), projects[i], turns[i], order)
  {
    var i := |orders|;
    assert projects[..i + 1][..i] == projects[..i] && turns[..i + 1][..i] == turns[..i];
    assert (orders + [order])[..i] == orders;
  }

  lemma TurnKeepsInv(cfg: Settings, db: Db, at: Time, project: string, order: seq<Id>, turn: Turn)
    requires Inv(db, at) && at <= turn.at && Listing(db, project, order)
    ensures Inv(AfterTurn(cfg, db, project, turn, order), turn.at)
  {
    var batch := Chosen(cfg, db, project, order, turn.now, turn.clock);
    TouchedKeepsAudit(db, db, at, turn.at);
    if turn.faults == {} && batch != [] {
      ChosenFacts(cfg, db, project, order, turn.now, turn.clock);
      CommitShrinks(db, project, batch, turn.at);
      ShrunkKeepsSchema(db, CommitBatch(db, project, batch, turn.at));
      FreshBatchKeepsDisjoint(db, project, batch, turn.at);
      CommitTouches(db, project, batch, turn.at);
      TouchedKeepsAudit(db, CommitBatch(db, project, batch, turn.at), at, turn.at);
    }
  }

  /** One tick: every project in turn, in order, each on what the turns before it left. A
      turn with a failing call changes nothing and does not stop the next. */
  method CheckAllProjects(store: Conn, cfg: Settings, projects: seq<string>, start: Time, turns: seq<Turn>)
    returns (ghost orders: seq<seq<Id>>)
    requires Inv(store.db, start) && |turns| == |projects|
    requires forall i :: 0 <= i < |turns| ==> start <= turns[i].at
    requires forall i, j :: 0 <= i < j < |turns| ==> turns[i].at <= turns[j].at
    modifies store
    ensures |orders| == |projects| && store.db == AfterTurns(cfg, old(store.db), projects, turns, orders)
    ensures Listed(cfg, old(store.db), projects, turns, orders)
    ensures Inv(store.db, if turns == [] then start else turns[|turns| - 1].at)
  {
    orders := [];
    ghost var before, at := store.db, start;
    for i := 0 to |projects|
      invariant |orders| == i && store.db == AfterTurns(cfg, before, projects[..i], turns[..i], orders)
      invariant Listed(cfg, before, projects[..i], turns[..i], orders)
      invariant Inv(store.db, at) && at == if i == 0 then start else turns[i - 1].at
    {
      ghost var db := store.db;
      var turn := turns[i];
      var done, order := ProcessProject(store, cfg, projects[i], turn.now, turn.clock, turn.at, turn.faults);
      TurnKeepsInv(cfg, db, at, projects[i], order, turns[i]);
      AfterTurnsNext(cfg, before, projects, turns, orders, order);
      ListedNext(cfg, before, projects, turns, orders, order);
      orders, at := orders + [order], turns[i].at;
    }
    assert projects[..|projects|] == projects && turns[..|projects|] == turns;
  }

  /** Each order is the listing of its project at its turn. */
  ghost predicate Listed(cfg: Settings, db: Db, projects: seq<string>, turns: seq<Turn>, orders: seq<seq<Id>>)
    requires |projects| == |turns| == |orders|
  {
    projects == [] ||
    (var n := |projects| - 1;
     && Listed(cfg, db, projects[..n], turns[..n], orders[..n])
     && Listing(AfterTurns(cfg, db, projects[..n], turns[..n], orders[..n]), projects[n], orders[n]))
  }

  lemma ListedNext(cfg: Settings, db: Db, projects: seq<string>, turns: seq<Turn>, orders: seq<seq<Id>>, order: seq<Id>)
    requires |projects| == |turns| && |orders| < |projects|
    requires Listed(cfg, db, projects[..|orders|], turns[..|orders|], orders)
    requires Listing(AfterTurns(cfg, db, projects[..|orders|], turns[..|orders|], orders), projects[|orders|], order)
    ensures Listed(cfg, db, projects[..|orders| + 1], turns[..|orders| + 1], orders + [order])
  {
    var i := |orders|;
    assert projects[..i + 1][..i] == projects[..i] && turns[..i + 1][..i] == turns[..i];
    assert (orders + [order])[..i] == orders;
  }

  // ---------- a tick as a run ----------

  /** The scheduler steps of the turns in which no call fails, in project order. A turn with
      nothing to promote is a step that changes nothing. */
  function CleanTicks(projects: seq<string>, turns: seq<Turn>, orders: seq<seq<Id>>): seq<Event>
    requires |projects| == |turns| == |orders|
  {
    if projects == [] then []
    else
      var n := |projects| - 1;
      CleanTicks(projects[..n], turns[..n], orders[..n])
      + if turns[n].faults == {} then [Event(turns[n].now, turns[n].at, Tick(projects[n], orders[n]))] else []
  }

  /** In no turn does an entry ripen while the loop runs. */
  ghost predicate NoneRipens(cfg: Settings, db: Db, projects: seq<string>, turns: seq<Turn>, orders: seq<seq<Id>>)
    requires |projects| == |turns| == |orders| && Listed(cfg, db, projects, turns, orders)
  {
    projects == [] ||
    (var n := |projects| - 1;
     var last := AfterTurns(cfg, db, projects[..n], turns[..n], orders[..n]);
     && NoneRipens(cfg, db, projects[..n], turns[..n], orders[..n])
     && (forall i :: turns[n].now <= turns[n].clock(i))
     && Unripened(cfg, last, projects[n], orders[n], turns[n].now, turns[n].clock))
  }

  /** When no entry ripens during its turn, a tick is the run of the scheduler steps of the
      turns without a failing call. */
  lemma {:induction false} TickIsRun(cfg: Settings, db: Db, start: Time, projects: seq<string>, turns: seq<Turn>,
                                     orders: seq<seq<Id>>)
    requires |projects| == |turns| == |orders| && Listed(cfg, db, projects, turns, orders)
    requires NoneRipens(cfg, db, projects, turns, orders)
    requires forall i :: 0 <= i < |turns| ==> start <= turns[i].at
    requires forall i, j :: 0 <= i < j < |turns| ==> turns[i].at <= turns[j].at
    ensures var run := CleanTicks(projects, turns, orders);
            && Valid(cfg, db, start, run)
            && Run(cfg, db, start, run) == AfterTurns(cfg, db, projects, turns, orders)
            && (EndTime(start, run) == start || exists i :: 0 <= i < |turns| && EndTime(start, run) == turns[i].at)
  {
    if projects != [] {
      var n := |projects| - 1;
      TickIsRun(cfg, db, start, projects[..n], turns[..n], orders[..n]);
      var run, turn := CleanTicks(projects[..n], turns[..n], orders[..n]), turns[n];
      if turn.faults == {} {
        var e := Event(turn.now, turn.at, Tick(projects[n], orders[n]));
        TurnIsStep(cfg, Run(cfg, db, start, run), projects[n], orders[n], turn.now, turn.clock, turn.at);
        Extend(cfg, db, start, run, e);
        assert CleanTicks(projects, turns, orders) == run + [e];
      } else {
        assert CleanTicks(projects, turns, orders) == run;
      }
    }
  }

  /** A run may go on with any enabled step. */
  lemma {:induction false} Extend(cfg: Settings, db: Db, at: Time, run: seq<Event>, e: Event)
    requires Valid(cfg, db, at, run) && EndTime(at, run) <= e.at && Enabled(Run(cfg, db, at, run), e)
    ensures Valid(cfg, db, at, run + [e])
    ensures Run(cfg, db, at, run + [e]) == Apply(cfg, Run(cfg, db, at, run), e)
    decreases |run|
  {
    if run == [] {
      assert [e][1..] == [];
      assert run + [e] == [e];
    } else {
      Extend(cfg, Apply(cfg, db, run[0]), run[0].at, run[1..], e);
      assert (run + [e])[1..] == run[1..] + [e];
    }
  }
}
