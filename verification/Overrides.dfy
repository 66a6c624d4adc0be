/** Over whole runs a project is held to its own batch size and window, or to the global ones
    where it has none, and a project switched off is left alone. */
module Overrides {
  import opened Tables
  import opened Selection
  import opened Lifecycle
  import opened Clock
  import opened SplitScheduler
  import opened RateBound
  import opened TurnEffect

  /** An atomic scheduler step takes what the settings in force allow. */
  lemma TickTakes(cfg: Settings, db: Db, e: Event, batch: nat, window: Time)
    requires Schema(db) && e.step.Tick? && Enabled(db, e) && InForce(cfg, e.step.project, batch, window)
    ensures var after, project := Apply(cfg, db, e), e.step.project;
            && TookBatch(db, after, project, batch, window, e.now, _ => e.now, e.at)
            && TookEnough(db, after, project, batch, window, e.now)
            && TookOldest(db, after, project)
  {
    var project, order, steady := e.step.project, e.step.order, (_: nat) => e.now;
    ChosenIsBatch(cfg, db, project, order, e.now, steady);
    TurnTakes(cfg, db, project, order, e.now, steady, e.at, batch, window);
    TurnTakesEnough(cfg, db, project, order, e.now, steady, e.at, batch, window);
    TurnTakesOldest(cfg, db, project, order, e.now, steady, e.at);
    SameBatch(db, Apply(cfg, db, e), project, batch, window, e.now, steady, _ => e.now, e.at);
  }

  lemma SameBatch(db: Db, after: Db, project: string, batch: nat, window: Time, now: Time, clock: nat -> Time,
                  other: nat -> Time, at: Time)
    requires TookBatch(db, after, project, batch, window, now, clock, at) && forall i :: clock(i) == other(i)
    ensures TookBatch(db, after, project, batch, window, now, other, at)
  {
    forall r | r in db.rows.Keys - after.rows.Keys
      ensures exists i: nat :: i < batch && Waited(db.rows[r], window, other(i))
    {
      var i: nat :| i < batch && Waited(db.rows[r], window, clock(i));
      assert Waited(db.rows[r], window, other(i));
    }
  }

  /** What a read of the split scheduler leaves pending. */
  lemma ReadTakes(cfg: Settings, w: World, a: Action, batch: nat, window: Time)
    requires SplitInv(w) && a.Snapshot? && Can(w, a) && InForce(cfg, a.project, batch, window)
    ensures var next := Do(cfg, w, a);
            && next.db == w.db
            && (next.pending.Some? ==>
                  var rows := RowsOf(next.pending.value.batch);
                  && |rows| <= batch && Cooled(w.db, a.project, window, a.now)
                  && forall r :: r in rows ==>
                       && r in w.db.rows && w.db.rows[r].project == a.project
                       && exists i: nat :: i < batch && Waited(w.db.rows[r], window, a.clock(i)))
            && (Cooled(w.db, a.project, window, a.now) ==>
                  var ripe := |WaitedRows(w.db, a.project, window, a.now)|;
                  var read := if next.pending.Some? then |RowsOf(next.pending.value.batch)| else 0;
                  read >= if ripe < batch then ripe else batch)
  {
    ForcePolicy(cfg, a.project, batch, window);
    ChosenFacts(cfg, w.db, a.project, a.order, a.now, a.clock);
    ChosenSizes(cfg, w.db, a.project, a.order, a.now, a.clock);
    var es := Chosen(cfg, w.db, a.project, a.order, a.now, a.clock);
    forall r | r in RowsOf(es)
      ensures r in w.db.rows && exists i: nat :: i < batch && Waited(w.db.rows[r], window, a.clock(i))
    {
      ChosenWaited(cfg, w.db, a.project, a.order, a.now, a.clock, r);
    }
    if Cooled(w.db, a.project, window, a.now) {
      RipeOrFull(cfg, w.db, a.project, a.order, a.now, a.clock);
    }
    if es == [] { assert RowsOf(es) == {}; }
  }

  /** The recorded batches of a project stay within the batch size in force and the window in
      force apart, cut down to the storage resolution. */
  lemma RunsKeepForce(cfg: Settings, res: Time, w: World, clock: Time, acts: seq<Action>, project: string,
                      batch: nat, window: Time)
    requires res > 0 && SplitInv(w) && Possible(cfg, w, acts) && Timed(res, clock, acts) && w.pending.None?
    requires InForce(cfg, project, batch, window)
    requires var key := Stamp(project, "waitlist_last_success"); key in w.db.stamps ==> Aligned(res, w.db.stamps[key])
    ensures Spaced(Log(cfg, w, acts, project), batch, Trunc(res, window), LastStamp(w.db, project))
  {
    ForcePolicy(cfg, project, batch, window);
    BatchesAreSpaced(cfg, res, w, clock, acts, project);
  }

  /** A project switched off, or not configured, gets no batch and no stamp. */
  lemma {:induction false} SwitchedOffRuns(cfg: Settings, w: World, acts: seq<Action>, project: string)
    requires SplitInv(w) && Possible(cfg, w, acts) && SwitchedOff(cfg, project)
    requires w.pending.Some? ==> w.pending.value.project != project
    ensures Log(cfg, w, acts, project) == []
    ensures LastStamp(After(cfg, w, acts).db, project) == LastStamp(w.db, project)
    decreases |acts|
  {
    if acts != [] {
      DoKeepsSplitInv(cfg, w, acts[0]);
      StampStays(cfg, w, acts[0], project);
      if acts[0].Snapshot? {
        ChosenFacts(cfg, w.db, acts[0].project, acts[0].order, acts[0].now, acts[0].clock);
      }
      SwitchedOffRuns(cfg, Do(cfg, w, acts[0]), acts[1..], project);
    }
  }
}
