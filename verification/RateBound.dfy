/** How fast the scheduler can promote: batches of a project are a window apart, so any
    stretch of time holds a bounded number of promotions. */
module RateBound {
  import opened Tables
  import opened Selection
  import opened Lifecycle
  import opened Clock
  import opened SplitScheduler

  /** One committed batch: its recorded time and the number of users it granted access. */
  datatype Promotion = Promotion(at: Time, count: nat)

  /** The users a commit hands access to. */
  function GrantedBy(w: World): set<Id> {
    if w.pending.Some? then UsersOf(w.pending.value.batch) * w.db.users.Keys else {}
  }

  /** The batches a run commits for one project, in order. */
  ghost function Log(cfg: Settings, w: World, acts: seq<Action>, project: string): seq<Promotion>
    requires Possible(cfg, w, acts)
    decreases |acts|
  {
    if acts == [] then []
    else
      var rest := Log(cfg, Do(cfg, w, acts[0]), acts[1..], project);
      if acts[0].Commit? && w.pending.value.project == project
      then [Promotion(acts[0].at, |GrantedBy(w)|)] + rest else rest
  }

  function BatchKey(project: string): Stamp {
    Stamp(project, WAITLIST_KEY)
  }

  /** What the cooldown knows: the stamp is a recorded time, and a pending batch of the
      project was read a full window after it. */
  ghost predicate Paced(cfg: Settings, res: Time, w: World, clock: Time, project: string)
    requires res > 0
  {
    && (BatchKey(project) in w.db.stamps ==> Aligned(res, w.db.stamps[BatchKey(project)]))
    && (w.pending.Some? ==>
          && w.pending.value.readAt <= clock
          && |w.pending.value.batch| <= PolicyOf(cfg, w.pending.value.project).batch
          && (w.pending.value.project == project && BatchKey(project) in w.db.stamps ==>
                w.pending.value.readAt - w.db.stamps[BatchKey(project)] >= PolicyOf(cfg, project).window))
  }

  lemma OtherKeepsStamps(cfg: Settings, db: Db, e: Event, project: string)
    requires Enabled(db, e) && !e.step.Tick?
    ensures BatchKey(project) in Apply(cfg, db, e).stamps <==> BatchKey(project) in db.stamps
    ensures BatchKey(project) in db.stamps ==>
              Apply(cfg, db, e).stamps[BatchKey(project)] == db.stamps[BatchKey(project)]
  {
  }

  lemma DoKeepsPaced(cfg: Settings, res: Time, w: World, clock: Time, a: Action, project: string)
    requires res > 0 && SplitInv(w) && Can(w, a) && Paced(cfg, res, w, clock, project)
    requires clock <= ClockOf(a, clock) && (a.Commit? ==> a.at == Trunc(res, a.now))
    ensures Paced(cfg, res, Do(cfg, w, a), ClockOf(a, clock), project)
  {
    match a
    case Other(e) => OtherKeepsStamps(cfg, w.db, e, project);
    case Snapshot(p, order, now, entryClock) => ChosenFacts(cfg, w.db, p, order, now, entryClock);
    case Commit(now, at) => TruncAligned(res, now);
    case Abandon =>
  }

  lemma UsersAtMost(batch: seq<Entry>, users: set<Id>)
    requires users <= UsersOf(batch)
    ensures |users| <= |batch|
  {
    if batch == [] {
      assert users == {};
    } else {
      var front := batch[..|batch| - 1];
      var rest := users - {batch[|batch| - 1].userId};
      forall u | u in rest ensures u in UsersOf(front) {
        var i :| 0 <= i < |batch| && batch[i].userId == u;
        assert front[i].userId == u;
      }
      UsersAtMost(front, rest);
      assert users <= rest + {batch[|batch| - 1].userId};
      if batch[|batch| - 1].userId in users { assert users == rest + {batch[|batch| - 1].userId}; }
    }
  }

  /** A commit of the project stamps at least the truncated window after the last stamp,
      and grants no more users than the batch size. */
  lemma CommitIsPaced(cfg: Settings, res: Time, w: World, clock: Time, a: Action, project: string)
    requires res > 0 && Can(w, a) && a.Commit? && Paced(cfg, res, w, clock, project)
    requires clock <= a.now && a.at == Trunc(res, a.now) && w.pending.value.project == project
    ensures BatchKey(project) in w.db.stamps ==>
              a.at - w.db.stamps[BatchKey(project)] >= Trunc(res, PolicyOf(cfg, project).window)
    ensures |GrantedBy(w)| <= PolicyOf(cfg, project).batch
  {
    if BatchKey(project) in w.db.stamps {
      CooldownGap(res, PolicyOf(cfg, project).window, w.db.stamps[BatchKey(project)], a.now);
    }
    UsersAtMost(w.pending.value.batch, GrantedBy(w));
  }

  /** Each batch within the size, each at least `gap` after the one before and after `last`. */
  predicate Spaced(log: seq<Promotion>, batch: nat, gap: Time, last: Option<Time>)
    decreases |log|
  {
    log == [] ||
    (&& log[0].count <= batch
     && (last.Some? ==> log[0].at - last.value >= gap)
     && Spaced(log[1..], batch, gap, Some(log[0].at)))
  }

  function LastStamp(db: Db, project: string): Option<Time> {
    if BatchKey(project) in db.stamps then Some(db.stamps[BatchKey(project)]) else None
  }

  /** Recorded batches of a project are at least the truncated window apart, whatever
      happens between the reading and the commit of each. */
  lemma {:induction false} BatchesAreSpaced(cfg: Settings, res: Time, w: World, clock: Time, acts: seq<Action>,
                                            project: string)
    requires res > 0 && SplitInv(w) && Possible(cfg, w, acts) && Timed(res, clock, acts)
    requires Paced(cfg, res, w, clock, project)
    ensures Spaced(Log(cfg, w, acts, project), PolicyOf(cfg, project).batch,
                   Trunc(res, PolicyOf(cfg, project).window), LastStamp(w.db, project))
    decreases |acts|
  {
    if acts != [] {
      var a, next := acts[0], Do(cfg, w, acts[0]);
      DoKeepsSplitInv(cfg, w, a);
      DoKeepsPaced(cfg, res, w, clock, a, project);
      BatchesAreSpaced(cfg, res, next, ClockOf(a, clock), acts[1..], project);
      var rest := Log(cfg, next, acts[1..], project);
      if a.Commit? && w.pending.value.project == project {
        CommitIsPaced(cfg, res, w, clock, a, project);
        CommitStamps(cfg, w, a);
        assert ([Promotion(a.at, |GrantedBy(w)|)] + rest)[1..] == rest;
      } else {
        StampStays(cfg, w, a, project);
      }
    }
  }

  lemma CommitStamps(cfg: Settings, w: World, a: Action)
    requires SplitInv(w) && Can(w, a) && a.Commit?
    ensures LastStamp(Do(cfg, w, a).db, w.pending.value.project) == Some(a.at)
  {
    assert w.pending.value.batch[0].userId in UsersOf(w.pending.value.batch);
  }

  lemma StampStays(cfg: Settings, w: World, a: Action, project: string)
    requires SplitInv(w) && Can(w, a) && !(a.Commit? && w.pending.value.project == project)
    ensures LastStamp(Do(cfg, w, a).db, project) == LastStamp(w.db, project)
  {
    if a.Other? { OtherKeepsStamps(cfg, w.db, a.e, project); }
  }

  /** Promotions recorded in the closed interval from `start` of length `length`. */
  function PromotedWithin(log: seq<Promotion>, start: Time, length: nat): nat {
    if log == [] then 0
    else
      var rest := PromotedWithin(log[1..], start, length);
      if start <= log[0].at <= start + length then log[0].count + rest else rest
  }

  lemma {:induction false} LaterThanInterval(log: seq<Promotion>, batch: nat, gap: Time, last: Time, start: Time,
                                             length: nat)
    requires gap > 0 && Spaced(log, batch, gap, Some(last)) && last + gap > start + length
    ensures PromotedWithin(log, start, length) == 0
  {
    if log != [] { LaterThanInterval(log[1..], batch, gap, log[0].at, start, length); }
  }

  lemma {:induction false} SameFrom(log: seq<Promotion>, batch: nat, gap: Time, last: Time, start: Time, length: nat,
                                    cut: nat)
    requires gap > 0 && Spaced(log, batch, gap, Some(last)) && last + gap >= start + cut && cut <= length
    ensures PromotedWithin(log, start, length) == PromotedWithin(log, start + cut, length - cut)
  {
    if log != [] { SameFrom(log[1..], batch, gap, log[0].at, start, length, cut); }
  }

  lemma {:induction false} SpacedIsBounded(log: seq<Promotion>, batch: nat, gap: Time, last: Option<Time>,
                                           start: Time, length: nat)
    requires gap > 0 && Spaced(log, batch, gap, last)
    ensures PromotedWithin(log, start, length) <= batch * (length / gap + 1)
    decreases |log|
  {
    if log != [] {
      var first, rest := log[0], log[1..];
      if start <= first.at <= start + length {
        if length < gap {
          LaterThanInterval(rest, batch, gap, first.at, start, length);
          assert length / gap == 0;
        } else {
          SameFrom(rest, batch, gap, first.at, start, length, gap);
          SpacedIsBounded(rest, batch, gap, Some(first.at), start + gap, length - gap);
          OneFewer(length, gap);
          var n := (length - gap) / gap + 1;
          assert batch * (n + 1) == batch * n + batch;
        }
      } else {
        SpacedIsBounded(rest, batch, gap, Some(first.at), start, length);
      }
    } else {
      assert length / gap >= 0;
    }
  }

  lemma OneFewer(length: nat, gap: Time)
    requires 0 < gap <= length
    ensures (length - gap) / gap + 1 == length / gap
  {
    var q, m := (length - gap) / gap, (length - gap) % gap;
    assert length == gap * (q + 1) + m;
    SameQuotient(gap, length / gap, q + 1, length % gap, m);
  }

  /** The rate bound: in any interval of length T a project sees at most
      batch * (T / gap + 1) scheduler promotions, the gap being its window cut to the
      storage resolution; the window itself when that is a whole number of seconds. */
  lemma {:induction false} PromotionRate(cfg: Settings, res: Time, w: World, clock: Time, acts: seq<Action>,
                                         project: string, start: Time, length: nat)
    requires res > 0 && SplitInv(w) && Possible(cfg, w, acts) && Timed(res, clock, acts)
    requires Paced(cfg, res, w, clock, project) && PolicyOf(cfg, project).window >= res
    ensures var policy := PolicyOf(cfg, project);
            && Trunc(res, policy.window) > 0
            && PromotedWithin(Log(cfg, w, acts, project), start, length)
               <= policy.batch * (length / Trunc(res, policy.window) + 1)
    ensures Aligned(res, PolicyOf(cfg, project).window) ==>
              Trunc(res, PolicyOf(cfg, project).window) == PolicyOf(cfg, project).window
  {
    var policy := PolicyOf(cfg, project);
    TruncPositive(res, policy.window);
    BatchesAreSpaced(cfg, res, w, clock, acts, project);
    SpacedIsBounded(Log(cfg, w, acts, project), policy.batch, Trunc(res, policy.window), LastStamp(w.db, project),
                    start, length);
  }

  lemma TruncPositive(res: Time, window: Time)
    requires 0 < res <= window
    ensures Trunc(res, window) > 0
    ensures Aligned(res, window) ==> Trunc(res, window) == window
  {
    TruncMonotone(res, res, window);
    Multiple(res, 1, 0);
  }

  // ---------- atomic runs ----------

  /** Identifiers are drawn once. */
  ghost predicate FreshRun(issued: set<Id>, run: seq<Event>)
    decreases |run|
  {
    run == [] || (Drawn(run[0].step) !! issued && FreshRun(issued + Drawn(run[0].step), run[1..]))
  }

  ghost predicate TimedRun(res: Time, clock: Time, run: seq<Event>)
    requires res > 0
    decreases |run|
  {
    run == [] || (clock <= run[0].now && run[0].at == Trunc(res, run[0].now) && TimedRun(res, run[0].now, run[1..]))
  }

  /** The batches an atomic run promotes for one project. */
  ghost function AtomicLog(cfg: Settings, db: Db, at: Time, run: seq<Event>, project: string): seq<Promotion>
    requires Valid(cfg, db, at, run)
    decreases |run|
  {
    if run == [] then []
    else
      var rest := AtomicLog(cfg, Apply(cfg, db, run[0]), run[0].at, run[1..], project);
      var e := run[0];
      if e.step.Tick? && e.step.project == project && TickBatch(cfg, db, project, e.step.order, e.now) != []
      then [Promotion(e.at, |UsersOf(TickBatch(cfg, db, project, e.step.order, e.now)) * db.users.Keys|)] + rest
      else rest
  }

  /** What putting one action in front does to a timed, logged run. */
  lemma PrependTimed(cfg: Settings, res: Time, w: World, clock: Time, a: Action, rest: seq<Action>, project: string)
    requires res > 0 && Can(w, a) && Possible(cfg, Do(cfg, w, a), rest)
    requires clock <= ClockOf(a, clock) && (a.Commit? ==> a.at == Trunc(res, a.now))
    requires Timed(res, ClockOf(a, clock), rest)
    ensures Possible(cfg, w, [a] + rest) && Timed(res, clock, [a] + rest)
    ensures After(cfg, w, [a] + rest) == After(cfg, Do(cfg, w, a), rest)
    ensures Log(cfg, w, [a] + rest, project) ==
            (if a.Commit? && w.pending.value.project == project then [Promotion(a.at, |GrantedBy(w)|)] else [])
            + Log(cfg, Do(cfg, w, a), rest, project)
  {
  }

  lemma TickAsSplit(cfg: Settings, res: Time, w: World, clock: Time, e: Event, rest: seq<Action>, project: string)
    returns (acts: seq<Action>)
    requires res > 0 && SplitInv(w) && w.pending.None? && e.step.Tick? && Enabled(w.db, e)
    requires clock <= e.now && e.at == Trunc(res, e.now)
    requires Possible(cfg, w.(db := Apply(cfg, w.db, e)), rest) && Timed(res, e.now, rest)
    ensures Possible(cfg, w, acts) && Timed(res, clock, acts)
    ensures After(cfg, w, acts) == After(cfg, w.(db := Apply(cfg, w.db, e)), rest)
    ensures var batch := TickBatch(cfg, w.db, e.step.project, e.step.order, e.now);
            Log(cfg, w, acts, project) ==
            (if e.step.project == project && batch != []
             then [Promotion(e.at, |UsersOf(batch) * w.db.users.Keys|)] else [])
            + Log(cfg, w.(db := Apply(cfg, w.db, e)), rest, project)
  {
    var steady := (_: nat) => e.now;
    var read := Snapshot(e.step.project, e.step.order, e.now, steady);
    AtomicIsSplit(cfg, w, e, steady);
    var w1 := Do(cfg, w, read);
    if w1.pending.None? {
      assert w1 == w.(db := Apply(cfg, w.db, e));
      PrependTimed(cfg, res, w, clock, read, rest, project);
      acts := [read] + rest;
    } else {
      assert Do(cfg, w1, Commit(e.now, e.at)) == w.(db := Apply(cfg, w.db, e));
      PrependTimed(cfg, res, w1, e.now, Commit(e.now, e.at), rest, project);
      PrependTimed(cfg, res, w, clock, read, [Commit(e.now, e.at)] + rest, project);
      acts := [read] + ([Commit(e.now, e.at)] + rest);
    }
  }

  /** Every atomic run is a split run that commits each batch as soon as it is read. */
  lemma {:induction false} AtomicRunsAreSplit(cfg: Settings, res: Time, w: World, clock: Time, at: Time,
                                              run: seq<Event>, project: string)
    returns (acts: seq<Action>)
    requires res > 0 && SplitInv(w) && w.pending.None? && Valid(cfg, w.db, at, run)
    requires FreshRun(w.issued, run) && TimedRun(res, clock, run)
    ensures Possible(cfg, w, acts) && Timed(res, clock, acts)
    ensures After(cfg, w, acts).db == Run(cfg, w.db, at, run)
    ensures Log(cfg, w, acts, project) == AtomicLog(cfg, w.db, at, run, project)
    decreases |run|
  {
    if run == [] {
      acts := [];
    } else {
      var e := run[0];
      if e.step.Tick? {
        var next := w.(db := Apply(cfg, w.db, e));
        TickKeepsSplitInv(cfg, w, e);
        assert w.issued + {} == w.issued;
        var rest := AtomicRunsAreSplit(cfg, res, next, e.now, e.at, run[1..], project);
        acts := TickAsSplit(cfg, res, w, clock, e, rest, project);
      } else {
        var next := Do(cfg, w, Other(e));
        DoKeepsSplitInv(cfg, w, Other(e));
        var rest := AtomicRunsAreSplit(cfg, res, next, e.now, e.at, run[1..], project);
        PrependTimed(cfg, res, w, clock, Other(e), rest, project);
        acts := [Other(e)] + rest;
      }
    }
  }

  lemma TickKeepsSplitInv(cfg: Settings, w: World, e: Event)
    requires SplitInv(w) && w.pending.None? && e.step.Tick? && Enabled(w.db, e)
    ensures SplitInv(w.(db := Apply(cfg, w.db, e)))
  {
    StepKeepsSchema(cfg, w.db, e);
    StepShrinks(cfg, w.db, e);
  }

  /** The rate bound for atomic runs. */
  lemma {:induction false} AtomicPromotionRate(cfg: Settings, res: Time, w: World, clock: Time, at: Time,
                                               run: seq<Event>, project: string, start: Time, length: nat)
    requires res > 0 && SplitInv(w) && w.pending.None? && Valid(cfg, w.db, at, run)
    requires FreshRun(w.issued, run) && TimedRun(res, clock, run)
    requires PolicyOf(cfg, project).window >= res && Paced(cfg, res, w, clock, project)
    ensures Trunc(res, PolicyOf(cfg, project).window) > 0
    ensures PromotedWithin(AtomicLog(cfg, w.db, at, run, project), start, length)
         <= PolicyOf(cfg, project).batch * (length / Trunc(res, PolicyOf(cfg, project).window) + 1)
  {
    var acts := AtomicRunsAreSplit(cfg, res, w, clock, at, run, project);
    PromotionRate(cfg, res, w, clock, acts, project, start, length);
  }
}
