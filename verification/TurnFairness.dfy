/** Whether a turn of the scheduler can promote a row and leave an older one, the clock being
    read again for every entry. */
module TurnFairness {
  import opened Tables
  import opened Selection
  import opened Lifecycle
  import opened Clock
  import opened SplitScheduler

  /** Weighted times are recorded times. */
  ghost predicate AlignedRows(res: Time, db: Db)
    requires res > 0
  {
    forall r :: r in db.rows ==> Aligned(res, Weighted(db.rows[r]))
  }

  predicate Older(db: Db, r: Id, e: Entry, project: string) {
    r in db.rows && db.rows[r].project == project && Weighted(db.rows[r]) < e.weightedAt
  }

  /** Every row of the project strictly older than a promoted one is promoted too. */
  ghost predicate FairTurn(cfg: Settings, db: Db, project: string, order: seq<Id>, now: Time, clock: nat -> Time)
    requires Listing(db, project, order)
  {
    var batch := Chosen(cfg, db, project, order, now, clock);
    forall e, r :: e in batch && Older(db, r, e, project) ==> EntryOf(db, r) in batch
  }

  /** Fair, if the turn is one the service can take: recorded rows, readings that never go
      back, and a loop no longer than `span`. */
  ghost predicate FairWithin(res: Time, span: Time, cfg: Settings, db: Db, project: string, order: seq<Id>, now: Time,
                             clock: nat -> Time)
    requires res > 0
  {
    && Schema(db) && Listing(db, project, order) && AlignedRows(res, db)
    && NoLongerThan(clock, span) && now <= clock(0) ==>
      FairTurn(cfg, db, project, order, now, clock)
  }

  lemma ListedBefore(db: Db, project: string, order: seq<Id>, j: nat, r: Id) returns (k: nat)
    requires Listing(db, project, order) && j < |order| && Older(db, r, EntryOf(db, order[j]), project)
    ensures k < j && order[k] == r
  {
    k :| 0 <= k < |order| && order[k] == r;
  }

  lemma OlderIsChosen(res: Time, span: Time, cfg: Settings, db: Db, project: string, order: seq<Id>, now: Time,
                      clock: nat -> Time, e: Entry, r: Id)
    requires res > 0 && span <= res && Listing(db, project, order) && AlignedRows(res, db) && NoLongerThan(clock, span)
    requires e in Chosen(cfg, db, project, order, now, clock) && Older(db, r, e, project)
    ensures EntryOf(db, r) in Chosen(cfg, db, project, order, now, clock)
  {
    var window, all := PolicyOf(cfg, project).window, Entries(db, order);
    var head := Take(all, PolicyOf(cfg, project).batch);
    PickedMember(head, |head|, window, clock, e);
    var j: nat :| j < |head| && head[j] == e && Ripe(e, window, clock(j));
    assert head[j] == all[j] == EntryOf(db, order[j]);
    var k := ListedBefore(db, project, order, j, r);
    assert head[k] == all[k] == EntryOf(db, r);
    ShortLoopIsFair(head, res, window, clock, span, k, j);
    PickedMember(head, |head|, window, clock, head[k]);
  }

  /** Two users with a row each, recorded one storage unit apart. */
  function SkipDb(person: Profile, base: Time, res: Time): Db {
    Db(map["u" := NewUser("p", "a@b", person, base), "v" := NewUser("p", "c@d", person, base + res)],
       map["r" := Row("p", "u", base, 0), "q" := Row("p", "v", base + res, 0)], map[])
  }

  function SkipClock(base: Time, res: Time, window: Time): nat -> Time {
    i => if i == 0 then base + window - 1 else base + window + res
  }

  lemma SkipDbIsSound(person: Profile, base: Time, res: Time)
    requires res > 0 && Aligned(res, base)
    ensures Schema(SkipDb(person, base, res)) && Disjoint(SkipDb(person, base, res))
    ensures AlignedRows(res, SkipDb(person, base, res)) && Listing(SkipDb(person, base, res), "p", ["r", "q"])
  {
    TruncShift(res, base, res);
    Multiple(res, 1, 0);
    var db := SkipDb(person, base, res);
    assert Weighted(db.rows["r"]) == base && Weighted(db.rows["q"]) == base + res;
  }

  lemma SkipPicks(window: Time, base: Time, res: Time)
    requires res > 0
    ensures Picked([Entry("r", "u", base), Entry("q", "v", base + res)], 2, window, SkipClock(base, res, window))
         == [Entry("q", "v", base + res)]
  {
    var head, clock := [Entry("r", "u", base), Entry("q", "v", base + res)], SkipClock(base, res, window);
    assert Picked(head, 0, window, clock) == [];
    assert Picked(head, 1, window, clock) == [];
  }

  lemma SkipChosen(cfg: Settings, db: Db, window: Time, base: Time, res: Time)
    requires res > 0 && PolicyOf(cfg, "p") == Policy(2, window, false) && db.stamps == map[]
    requires Listing(db, "p", ["r", "q"]) && db.rows.Keys == {"r", "q"}
    requires EntryOf(db, "r") == Entry("r", "u", base) && EntryOf(db, "q") == Entry("q", "v", base + res)
    ensures var clock := SkipClock(base, res, window);
            Chosen(cfg, db, "p", ["r", "q"], clock(0), clock) == [EntryOf(db, "q")]
  {
    SkipPicks(window, base, res);
    assert Entries(db, ["r", "q"]) == [Entry("r", "u", base), Entry("q", "v", base + res)];
    assert Take(Entries(db, ["r", "q"]), 2) == Entries(db, ["r", "q"]);
  }

  /** In a turn longer than the storage resolution the younger of two recorded rows can be
      promoted and the older left: it is looked at just before it ripens. */
  lemma LongTurnSkips(res: Time, span: Time, window: Time, base: Time, person: Profile)
    returns (cfg: Settings, db: Db, clock: nat -> Time)
    requires res > 0 && span > res && Aligned(res, base)
    ensures PolicyOf(cfg, "p") == Policy(2, window, false)
    ensures Schema(db) && Disjoint(db) && AlignedRows(res, db) && NoLongerThan(clock, span)
    ensures Listing(db, "p", ["r", "q"]) && db.rows.Keys == {"r", "q"}
    ensures Weighted(db.rows["r"]) < Weighted(db.rows["q"])
    ensures Chosen(cfg, db, "p", ["r", "q"], clock(0), clock) == [EntryOf(db, "q")]
  {
    cfg := Settings(2, window, map["p" := Override(None, None, false)]);
    db, clock := SkipDb(person, base, res), SkipClock(base, res, window);
    SkipDbIsSound(person, base, res);
    SkipChosen(cfg, db, window, base, res);
  }

  lemma SkippedIsUnfair(cfg: Settings, db: Db, now: Time, clock: nat -> Time)
    requires Listing(db, "p", ["r", "q"]) && db.rows.Keys == {"r", "q"}
    requires Weighted(db.rows["r"]) < Weighted(db.rows["q"])
    requires Chosen(cfg, db, "p", ["r", "q"], now, clock) == [EntryOf(db, "q")]
    ensures !FairTurn(cfg, db, "p", ["r", "q"], now, clock)
  {
    var batch := Chosen(cfg, db, "p", ["r", "q"], now, clock);
    assert ["r", "q"][0] == "r";
    assert batch[0] in batch && Older(db, "r", batch[0], "p");
    assert EntryOf(db, "r").weightedAt != batch[0].weightedAt;
  }

  /** Turns never promote a row and leave a strictly older one exactly when their loop takes
      no longer than the storage resolution, whatever the window. */
  lemma FairExactly(res: Time, span: Time)
    requires res > 0
    ensures span <= res <==>
              forall cfg, db, project, order, now, clock ::
                FairWithin(res, span, cfg, db, project, order, now, clock)
  {
    if span <= res {
      forall cfg, db, project, order, now, clock
        ensures FairWithin(res, span, cfg, db, project, order, now, clock)
      {
        if Listing(db, project, order) && AlignedRows(res, db) && NoLongerThan(clock, span) {
          forall e, r | e in Chosen(cfg, db, project, order, now, clock) && Older(db, r, e, project)
            ensures EntryOf(db, r) in Chosen(cfg, db, project, order, now, clock)
          {
            OlderIsChosen(res, span, cfg, db, project, order, now, clock, e, r);
          }
        }
      }
    } else {
      Multiple(res, 0, 0);
      var cfg, db, clock := LongTurnSkips(res, span, 0, 0, Profile("", "", None));
      SkippedIsUnfair(cfg, db, clock(0), clock);
      assert !FairWithin(res, span, cfg, db, "p", ["r", "q"], clock(0), clock);
    }
  }
}
