/** The scheduler as it runs: the batch is read outside the transaction that commits it, so
    other transactions can come in between, and the clock is read again for every entry. One
    scheduler process, one batch pending. */
module SplitScheduler {
  import opened Tables
  import opened Selection
  import opened Text
  import opened Lifecycle
  import opened Clock

  datatype Pending = Pending(project: string, batch: seq<Entry>, readAt: Time)

  /** `issued` holds every identifier drawn so far; identifiers are never drawn twice. */
  datatype World = World(db: Db, issued: set<Id>, pending: Option<Pending>)

  datatype Action =
    | Other(e: Event)
    | Snapshot(project: string, order: seq<Id>, now: Time, clock: nat -> Time)
    | Commit(now: Time, at: Time)
    | Abandon

  /** The entries one turn of the scheduler promotes, `now` being the reading of the cooldown
      test and `clock` the readings of the selection loop. */
  ghost function Chosen(cfg: Settings, db: Db, project: string, order: seq<Id>, now: Time,
                        clock: nat -> Time): seq<Entry>
    requires Listing(db, project, order)
  {
    var policy := PolicyOf(cfg, project);
    var head := Take(Entries(db, order), policy.batch);
    if Due(cfg, db, project, now) then Picked(head, |head|, policy.window, clock) else []
  }

  lemma ChosenFacts(cfg: Settings, db: Db, project: string, order: seq<Id>, now: Time, clock: nat -> Time)
    requires Listing(db, project, order)
    ensures var batch := Chosen(cfg, db, project, order, now, clock);
            && |batch| <= PolicyOf(cfg, project).batch
            && (batch != [] ==> Due(cfg, db, project, now))
            && Current(db, batch)
            && forall i :: 0 <= i < |batch| ==> db.rows[batch[i].id].project == project
  {
    var head := Take(Entries(db, order), PolicyOf(cfg, project).batch);
    var batch := Chosen(cfg, db, project, order, now, clock);
    if Due(cfg, db, project, now) {
      PickedMember(head, |head|, PolicyOf(cfg, project).window, clock, Entry([], [], 0));
      forall i | 0 <= i < |batch| ensures batch[i] in head {
        PickedMember(head, |head|, PolicyOf(cfg, project).window, clock, batch[i]);
      }
    }
  }

  /** No entry fetched ripens between the first reading of the turn and its own. */
  ghost predicate Unripened(cfg: Settings, db: Db, project: string, order: seq<Id>, now: Time, clock: nat -> Time)
    requires Listing(db, project, order)
  {
    var policy := PolicyOf(cfg, project);
    var head := Take(Entries(db, order), policy.batch);
    forall i: nat :: i < |head| && Ripe(head[i], policy.window, clock(i)) ==> Ripe(head[i], policy.window, now)
  }

  /** Outside the cooldown a turn promotes the batch of the atomic scheduler step exactly
      when no entry ripens during it. */
  lemma ChosenIsBatch(cfg: Settings, db: Db, project: string, order: seq<Id>, now: Time, clock: nat -> Time)
    requires Listing(db, project, order) && forall i :: now <= clock(i)
    ensures Due(cfg, db, project, now) ==>
              (Chosen(cfg, db, project, order, now, clock) == TickBatch(cfg, db, project, order, now)
               <==> Unripened(cfg, db, project, order, now, clock))
    ensures Unripened(cfg, db, project, order, now, clock) ==>
              Chosen(cfg, db, project, order, now, clock) == TickBatch(cfg, db, project, order, now)
  {
    var policy := PolicyOf(cfg, project);
    var head := Take(Entries(db, order), policy.batch);
    MovingClockExactly(head, |head|, policy.window, now, clock);
  }

  function Drawn(s: Step): set<Id> {
    if s.SignUp? then {s.userId, s.rowId} else {}
  }

  ghost predicate Can(w: World, a: Action) {
    match a
    case Other(e) => !e.step.Tick? && Enabled(w.db, e) && Drawn(e.step) !! w.issued
    case Snapshot(project, order, now, clock) =>
      w.pending.None? && Listing(w.db, project, order) && forall i :: now <= clock(i)
    case Commit(_, _) => w.pending.Some?
    case Abandon => w.pending.Some?
  }

  ghost function Do(cfg: Settings, w: World, a: Action): World
    requires Can(w, a)
  {
    match a
    case Other(e) => World(Apply(cfg, w.db, e), w.issued + Drawn(e.step), w.pending)
    case Snapshot(project, order, now, clock) =>
      var batch := Chosen(cfg, w.db, project, order, now, clock);
      if batch == [] then w else w.(pending := Some(Pending(project, batch, now)))
    case Commit(_, at) =>
      w.(db := CommitBatch(w.db, w.pending.value.project, w.pending.value.batch, at), pending := None)
    case Abandon => w.(pending := None)
  }

  /** Read at one clock reading and committed in one go, a batch is the atomic scheduler step. */
  lemma AtomicIsSplit(cfg: Settings, w: World, e: Event, clock: nat -> Time)
    requires e.step.Tick? && w.pending.None? && Enabled(w.db, e) && forall i :: clock(i) == e.now
    ensures var read := Do(cfg, w, Snapshot(e.step.project, e.step.order, e.now, clock));
            && (read.pending.None? ==> read.db == Apply(cfg, w.db, e))
            && (read.pending.Some? ==> Do(cfg, read, Commit(e.now, e.at)).db == Apply(cfg, w.db, e))
            && (read.pending.None? <==> TickBatch(cfg, w.db, e.step.project, e.step.order, e.now) == [])
            && (read.pending.Some? ==>
                  read.pending.value.project == e.step.project
                  && read.pending.value.batch == TickBatch(cfg, w.db, e.step.project, e.step.order, e.now))
  {
    ChosenIsBatch(cfg, w.db, e.step.project, e.step.order, e.now, clock);
  }

  /** A turn whose transaction fails, after reading or after nothing was found, leaves
      everything as it was. */
  lemma FailedTurn(cfg: Settings, w: World, read: Action)
    requires w.pending.None? && read.Snapshot? && Can(w, read)
    ensures var next := Do(cfg, w, read);
            next == w || (Can(next, Abandon) && Do(cfg, next, Abandon) == w)
  {
  }

  // ---------- time ----------

  function ClockOf(a: Action, before: Time): Time {
    match a
    case Other(e) => e.now
    case Snapshot(_, _, now, _) => now
    case Commit(now, _) => now
    case Abandon => before
  }

  /** The clock never runs backwards, and commits record it at the storage resolution. */
  ghost predicate Timed(res: Time, clock: Time, acts: seq<Action>)
    requires res > 0
    decreases |acts|
  {
    acts == [] ||
    (&& clock <= ClockOf(acts[0], clock)
     && (acts[0].Commit? ==> acts[0].at == Trunc(res, acts[0].now))
     && Timed(res, ClockOf(acts[0], clock), acts[1..]))
  }

  /** The other transactions record it at the storage resolution as well. */
  ghost predicate OthersRecorded(res: Time, acts: seq<Action>)
    requires res > 0
  {
    forall i :: 0 <= i < |acts| && acts[i].Other? ==> acts[i].e.at == Trunc(res, acts[i].e.now)
  }

  // ---------- what a pending batch can rely on ----------

  /** A pending entry may have lost its row, but its row cannot have changed hands. */
  ghost predicate Traceable(w: World, p: Pending) {
    && p.batch != []
    && (forall i :: 0 <= i < |p.batch| ==>
          && p.batch[i].id in w.issued
          && p.batch[i].userId in w.db.users && w.db.users[p.batch[i].userId].project == p.project
          && (p.batch[i].id in w.db.rows ==> w.db.rows[p.batch[i].id].userId == p.batch[i].userId))
    && (forall i, j :: 0 <= i < |p.batch| && 0 <= j < |p.batch| && p.batch[i].userId == p.batch[j].userId ==>
          p.batch[i].id == p.batch[j].id)
    && (forall i, j :: 0 <= i < |p.batch| && 0 <= j < |p.batch| && p.batch[i].id == p.batch[j].id ==>
          p.batch[i].userId == p.batch[j].userId)
  }

  ghost predicate SplitInv(w: World) {
    && Schema(w.db)
    && w.db.users.Keys + w.db.rows.Keys <= w.issued
    && (w.pending.Some? ==> Traceable(w, w.pending.value))
  }

  lemma OtherFrame(cfg: Settings, db: Db, e: Event)
    requires Enabled(db, e)
    ensures var after := Apply(cfg, db, e);
            && db.users.Keys <= after.users.Keys <= db.users.Keys + Drawn(e.step)
            && (forall u :: u in db.users ==> after.users[u].project == db.users[u].project)
            && after.rows.Keys <= db.rows.Keys + Drawn(e.step)
            && (forall r :: r in after.rows && r in db.rows ==> after.rows[r] == db.rows[r])
  {
    if !e.step.SignUp? { StepShrinks(cfg, db, e); }
  }

  lemma OtherKeepsSplitInv(cfg: Settings, w: World, e: Event)
    requires SplitInv(w) && Can(w, Other(e))
    ensures SplitInv(Do(cfg, w, Other(e)))
  {
    StepKeepsSchema(cfg, w.db, e);
    OtherFrame(cfg, w.db, e);
  }

  lemma SnapshotKeepsSplitInv(cfg: Settings, w: World, a: Action)
    requires SplitInv(w) && a.Snapshot? && Can(w, a)
    ensures SplitInv(Do(cfg, w, a))
  {
    ChosenFacts(cfg, w.db, a.project, a.order, a.now, a.clock);
    var batch := Chosen(cfg, w.db, a.project, a.order, a.now, a.clock);
    forall i | 0 <= i < |batch|
      ensures batch[i].userId in w.db.users && w.db.users[batch[i].userId].project == a.project
    {
      assert OwnerAgrees(w.db, w.db.rows[batch[i].id]);
    }
  }

  lemma CommitKeepsSplitInv(cfg: Settings, w: World, a: Action)
    requires SplitInv(w) && a.Commit? && Can(w, a)
    ensures SplitInv(Do(cfg, w, a))
  {
    var p := w.pending.value;
    assert p.batch[0].userId in UsersOf(p.batch);
    CommitFacts(w.db, p.project, p.batch, a.at);
    ShrunkKeepsSchema(w.db, Do(cfg, w, a).db);
  }

  lemma DoKeepsSplitInv(cfg: Settings, w: World, a: Action)
    requires SplitInv(w) && Can(w, a)
    ensures SplitInv(Do(cfg, w, a))
  {
    match a
    case Other(e) => OtherKeepsSplitInv(cfg, w, e);
    case Snapshot(_, _, _, _) => SnapshotKeepsSplitInv(cfg, w, a);
    case Commit(_, _) => CommitKeepsSplitInv(cfg, w, a);
    case Abandon =>
  }

  // ---------- the stale set ----------

  /** Users who have access and still own a waiting row. */
  ghost function Stale(db: Db): set<Id> {
    set u | u in db.users && db.users[u].hasAccess && HasRow(db, u)
  }

  /** Users of the pending batch without access whose row was deleted since it was read
      and who own another row by now. */
  ghost function Replaced(db: Db, batch: seq<Entry>): set<Id> {
    set i | 0 <= i < |batch| && Requeued(db, batch[i]) :: batch[i].userId
  }

  ghost predicate Requeued(db: Db, e: Entry) {
    e.userId in db.users && !db.users[e.userId].hasAccess && e.id !in db.rows && HasRow(db, e.userId)
  }

  /** What keeps a step from making anybody stale: nobody gets access without losing the
      row, and nobody with access gets a row. */
  ghost predicate AddsNoStale(db: Db, after: Db) {
    forall u, r :: u in after.users && after.users[u].hasAccess && r in after.rows && after.rows[r].userId == u ==>
                     && u in db.users && db.users[u].hasAccess
                     && r in db.rows && db.rows[r].userId == u
  }

  lemma SignUpAddsNoStale(cfg: Settings, db: Db, e: Event)
    requires RowsOwned(db) && Enabled(db, e) && e.step.SignUp?
    ensures AddsNoStale(db, Apply(cfg, db, e))
  {
  }

  lemma AdminAddsNoStale(cfg: Settings, db: Db, e: Event)
    requires Enabled(db, e) && !e.step.Tick? && !e.step.SignUp?
    ensures AddsNoStale(db, Apply(cfg, db, e))
  {
    match e.step
    case Grant(user) => assert AddsNoStale(db, GrantDb(db, user, e.at));
    case Revoke(user, reason, admin) => assert AddsNoStale(db, RevokeDb(db, user, reason, admin, e.at));
    case DeleteRow(row) => assert AddsNoStale(db, DeleteRows(db, {row}));
    case DigestSent(_) =>
  }

  lemma OtherAddsNoStale(cfg: Settings, db: Db, e: Event)
    requires RowsOwned(db) && Enabled(db, e) && !e.step.Tick?
    ensures Stale(Apply(cfg, db, e)) <= Stale(db)
  {
    var after := Apply(cfg, db, e);
    if e.step.SignUp? { SignUpAddsNoStale(cfg, db, e); } else { AdminAddsNoStale(cfg, db, e); }
    forall u | u in Stale(after) ensures u in Stale(db) {
      var r :| r in after.rows && after.rows[r].userId == u;
    }
  }

  /** A commit adds to the stale set exactly the replaced users of its batch. */
  lemma CommitAddsReplaced(cfg: Settings, w: World, a: Action)
    requires SplitInv(w) && a.Commit? && Can(w, a)
    ensures Stale(Do(cfg, w, a).db) - Stale(w.db) == Replaced(w.db, w.pending.value.batch)
  {
    var p, after := w.pending.value, Do(cfg, w, a).db;
    assert p.batch[0].userId in UsersOf(p.batch);
    CommitFacts(w.db, p.project, p.batch, a.at);
    forall u | u in Stale(after) - Stale(w.db) ensures u in Replaced(w.db, p.batch) {
      StaleWasReplaced(w, p, after, a.at, u);
    }
    forall u | u in Replaced(w.db, p.batch) ensures u in Stale(after) - Stale(w.db) {
      ReplacedTurnsStale(w, p, after, a.at, u);
    }
  }

  lemma StaleWasReplaced(w: World, p: Pending, after: Db, at: Time, u: Id)
    requires Schema(w.db) && Traceable(w, p) && Promoted(w.db, after, p.batch, at)
    requires u in Stale(after) && u !in Stale(w.db)
    ensures u in Replaced(w.db, p.batch)
  {
  }

  lemma ReplacedTurnsStale(w: World, p: Pending, after: Db, at: Time, u: Id)
    requires Schema(w.db) && Traceable(w, p) && Promoted(w.db, after, p.batch, at)
    requires u in Replaced(w.db, p.batch)
    ensures u in Stale(after) && u !in Stale(w.db)
  {
  }

  /** The stale set grows only at a commit, by exactly the replaced users. */
  lemma {:induction false} StaleGrowth(cfg: Settings, w: World, a: Action)
    requires SplitInv(w) && Can(w, a)
    ensures Stale(Do(cfg, w, a).db) - Stale(w.db)
         == if a.Commit? then Replaced(w.db, w.pending.value.batch) else {}
  {
    match a
    case Other(e) => OtherAddsNoStale(cfg, w.db, e);
    case Commit(_, _) => CommitAddsReplaced(cfg, w, a);
    case _ =>
  }

  // ---------- runs ----------

  ghost predicate Possible(cfg: Settings, w: World, acts: seq<Action>)
    decreases |acts|
  {
    acts == [] || (Can(w, acts[0]) && Possible(cfg, Do(cfg, w, acts[0]), acts[1..]))
  }

  ghost function After(cfg: Settings, w: World, acts: seq<Action>): World
    requires Possible(cfg, w, acts)
    decreases |acts|
  {
    if acts == [] then w else After(cfg, Do(cfg, w, acts[0]), acts[1..])
  }

  /** All users replaced at some commit of a run. */
  ghost function ReplacedIn(cfg: Settings, w: World, acts: seq<Action>): set<Id>
    requires Possible(cfg, w, acts)
    decreases |acts|
  {
    if acts == [] then {}
    else
      var rest := ReplacedIn(cfg, Do(cfg, w, acts[0]), acts[1..]);
      if acts[0].Commit? then Replaced(w.db, w.pending.value.batch) + rest else rest
  }

  /** Over whole runs: whoever has access and waits at the end did so at the start or was
      replaced at a commit. With no replacement, access and waiting stay apart. */
  lemma {:induction false} StaleOrigin(cfg: Settings, w: World, acts: seq<Action>)
    requires SplitInv(w) && Possible(cfg, w, acts)
    ensures SplitInv(After(cfg, w, acts))
    ensures Stale(After(cfg, w, acts).db) <= Stale(w.db) + ReplacedIn(cfg, w, acts)
    decreases |acts|
  {
    if acts != [] {
      DoKeepsSplitInv(cfg, w, acts[0]);
      StaleGrowth(cfg, w, acts[0]);
      StaleOrigin(cfg, Do(cfg, w, acts[0]), acts[1..]);
    }
  }

  /** The last time the database has recorded. */
  function WrittenAt(a: Action, before: Time): Time {
    match a
    case Other(e) => e.at
    case Commit(_, at) => at
    case _ => before
  }

  ghost predicate InOrder(at: Time, acts: seq<Action>)
    decreases |acts|
  {
    acts == [] || (at <= WrittenAt(acts[0], at) && InOrder(WrittenAt(acts[0], at), acts[1..]))
  }

  function LastWritten(at: Time, acts: seq<Action>): Time
    decreases |acts|
  {
    if acts == [] then at else LastWritten(WrittenAt(acts[0], at), acts[1..])
  }

  /** The audit columns survive every action, a commit of a stale batch included: it may
      grant somebody who was revoked, granted or queued again since the batch was read. */
  lemma {:induction false} DoKeepsAudit(cfg: Settings, w: World, at: Time, a: Action)
    requires Audited(w.db, at) && Can(w, a) && at <= WrittenAt(a, at)
    ensures Audited(Do(cfg, w, a).db, WrittenAt(a, at))
  {
    match a
    case Other(e) =>
      StepTouches(cfg, w.db, e);
      TouchedKeepsAudit(w.db, Do(cfg, w, a).db, at, e.at);
    case Commit(_, next) =>
      CommitTouches(w.db, w.pending.value.project, w.pending.value.batch, next);
      TouchedKeepsAudit(w.db, Do(cfg, w, a).db, at, next);
    case _ =>
  }

  /** In every state the split scheduler reaches, the schema and the audit invariant hold;
      only the separation of access and waiting can be lost, as StaleGrowth says. */
  lemma {:induction false} SplitRunKeepsInv(cfg: Settings, w: World, at: Time, acts: seq<Action>)
    requires SplitInv(w) && Audited(w.db, at) && Possible(cfg, w, acts) && InOrder(at, acts)
    ensures SplitInv(After(cfg, w, acts)) && Audited(After(cfg, w, acts).db, LastWritten(at, acts))
    decreases |acts|
  {
    if acts != [] {
      DoKeepsSplitInv(cfg, w, acts[0]);
      DoKeepsAudit(cfg, w, at, acts[0]);
      SplitRunKeepsInv(cfg, Do(cfg, w, acts[0]), WrittenAt(acts[0], at), acts[1..]);
    }
  }

  lemma DisjointIsNoStale(db: Db)
    ensures Disjoint(db) <==> Stale(db) == {}
  {
    if Stale(db) == {} {
      forall r | r in db.rows && db.rows[r].userId in db.users ensures !db.users[db.rows[r].userId].hasAccess {
        assert HasRow(db, db.rows[r].userId);
        assert db.rows[r].userId !in Stale(db);
      }
    }
  }

  ghost predicate AlwaysDisjoint(cfg: Settings, w: World, acts: seq<Action>)
    requires Possible(cfg, w, acts)
    decreases |acts|
  {
    Disjoint(w.db) && (acts == [] || AlwaysDisjoint(cfg, Do(cfg, w, acts[0]), acts[1..]))
  }

  /** From a state in which access and waiting are apart, they stay apart in every state of a
      run exactly when no commit of it promotes a replaced user. */
  lemma {:induction false} DisjointExactly(cfg: Settings, w: World, acts: seq<Action>)
    requires SplitInv(w) && Possible(cfg, w, acts) && Disjoint(w.db)
    ensures AlwaysDisjoint(cfg, w, acts) <==> ReplacedIn(cfg, w, acts) == {}
    decreases |acts|
  {
    if acts != [] {
      var next := Do(cfg, w, acts[0]);
      DoKeepsSplitInv(cfg, w, acts[0]);
      StaleGrowth(cfg, w, acts[0]);
      DisjointIsNoStale(w.db);
      DisjointIsNoStale(next.db);
      if Disjoint(next.db) { DisjointExactly(cfg, next, acts[1..]); }
    }
  }

  // ---------- a replacement that happens ----------

  /** Project "default", batches of 25, a window of one storage unit. */
  function Demo(res: Time): Settings {
    Settings(25, res, map["default" := Override(None, None, false)])
  }

  const DEMO_ENTRY := Entry("r", "u", 0)

  function DemoWorld(person: Profile, rows: map<Id, Row>, issued: set<Id>, pending: Option<Pending>): World {
    World(Db(map["u" := NewUser("default", "jane@example.com", person, 0)], rows, map[]), issued, pending)
  }

  function DemoSnapshot(res: Time): Action {
    Snapshot("default", ["r"], res, _ => res)
  }

  lemma DemoRead(res: Time, person: Profile)
    ensures var w := DemoStart(person);
            && Can(w, DemoSnapshot(res))
            && Do(Demo(res), w, DemoSnapshot(res)) == w.(pending := Some(Pending("default", [DEMO_ENTRY], res)))
  {
    var w := DemoStart(person);
    var clock := DemoSnapshot(res).clock;
    assert Entries(w.db, ["r"]) == [DEMO_ENTRY];
    assert Take([DEMO_ENTRY], 25) == [DEMO_ENTRY];
    assert Picked([DEMO_ENTRY], 0, res, clock) == [];
    assert Picked([DEMO_ENTRY], 1, res, clock) == [DEMO_ENTRY];
  }

  lemma DemoRequeue(res: Time, person: Profile, p: Pending)
    ensures var w := DemoWorld(person, map[], {"u", "r"}, Some(p));
            && Can(w, DemoSignUp(res, person))
            && Do(Demo(res), w, DemoSignUp(res, person))
            == DemoWorld(person, map["q" := Row("default", "u", res, 0)], {"u", "r", "v", "q"}, Some(p))
  {
    var w := DemoWorld(person, map[], {"u", "r"}, Some(p));
    assert "u" in w.db.users;
    assert FindUser(w.db, "default", "jane@example.com") == Some("u");
  }

  function DemoSignUp(res: Time, person: Profile): Action {
    Other(Event(res, res, SignUp("default", "jane@example.com", person, "v", "q")))
  }

  lemma Prepend(cfg: Settings, w: World, a: Action, rest: seq<Action>)
    requires Can(w, a) && Possible(cfg, Do(cfg, w, a), rest)
    ensures Possible(cfg, w, [a] + rest)
    ensures After(cfg, w, [a] + rest) == After(cfg, Do(cfg, w, a), rest)
  {
  }

  function DemoStart(person: Profile): World {
    DemoWorld(person, map["r" := Row("default", "u", 0, 0)], {"u", "r"}, None)
  }

  lemma DemoTail(res: Time, person: Profile, p: Pending) returns (tail: seq<Action>)
    requires res > 0 && p == Pending("default", [DEMO_ENTRY], res)
    ensures tail == [DemoSignUp(res, person), Commit(res, res)]
    ensures var w := DemoWorld(person, map[], {"u", "r"}, Some(p));
            && Possible(Demo(res), w, tail) && !Disjoint(After(Demo(res), w, tail).db)
            && After(Demo(res), w, tail).db.users.Keys == {"u"}
  {
    var w2 := DemoWorld(person, map[], {"u", "r"}, Some(p));
    var w3 := DemoWorld(person, map["q" := Row("default", "u", res, 0)], {"u", "r", "v", "q"}, Some(p));
    DemoRequeue(res, person, p);
    DemoCommit(res, w3);
    Prepend(Demo(res), w3, Commit(res, res), []);
    tail := [DemoSignUp(res, person)] + ([Commit(res, res)] + []);
    Prepend(Demo(res), w2, DemoSignUp(res, person), [Commit(res, res)] + []);
  }

  function DemoDelete(res: Time): Action {
    Other(Event(res, res, DeleteRow("r")))
  }

  lemma DemoDrop(res: Time, person: Profile, p: Pending)
    ensures var w := DemoStart(person).(pending := Some(p));
            && Can(w, DemoDelete(res))
            && Do(Demo(res), w, DemoDelete(res)) == DemoWorld(person, map[], {"u", "r"}, Some(p))
  {
  }

  /** The replacement does happen, at recorded times of either database: an entry is read, its
      row deleted, its user signs up again, and the commit grants access while the new row
      stays. */
  lemma StaleCanHappen(res: Time, person: Profile) returns (acts: seq<Action>)
    requires res > 0
    ensures SplitInv(DemoStart(person)) && Disjoint(DemoStart(person).db) && Audited(DemoStart(person).db, 0)
    ensures Possible(Demo(res), DemoStart(person), acts) && !Disjoint(After(Demo(res), DemoStart(person), acts).db)
    ensures After(Demo(res), DemoStart(person), acts).db.users.Keys == {"u"}
    ensures Timed(res, 0, acts) && OthersRecorded(res, acts) && InOrder(0, acts)
  {
    var p := Pending("default", [DEMO_ENTRY], res);
    var tail := DemoTail(res, person, p);
    DemoDrop(res, person, p);
    Prepend(Demo(res), DemoStart(person).(pending := Some(p)), DemoDelete(res), tail);
    DemoRead(res, person);
    acts := [DemoSnapshot(res)] + ([DemoDelete(res)] + tail);
    Prepend(Demo(res), DemoStart(person), DemoSnapshot(res), [DemoDelete(res)] + tail);
    DemoIsTimed(res, person);
    assert acts == [DemoSnapshot(res), DemoDelete(res), DemoSignUp(res, person), Commit(res, res)];
  }

  lemma DemoIsTimed(res: Time, person: Profile)
    requires res > 0
    ensures var acts := [DemoSnapshot(res), DemoDelete(res), DemoSignUp(res, person), Commit(res, res)];
            Timed(res, 0, acts) && OthersRecorded(res, acts) && InOrder(0, acts)
  {
    Multiple(res, 1, 0);
    var a4: seq<Action> := [Commit(res, res)];
    var a3 := [DemoSignUp(res, person), Commit(res, res)];
    var a2 := [DemoDelete(res), DemoSignUp(res, person), Commit(res, res)];
    assert a3[1..] == a4 && a2[1..] == a3 && a4[1..] == [];
    assert Timed(res, res, a4) && InOrder(res, a4);
    assert Timed(res, res, a3) && InOrder(res, a3);
    assert Timed(res, res, a2) && InOrder(res, a2);
    assert [DemoSnapshot(res), DemoDelete(res), DemoSignUp(res, person), Commit(res, res)][1..] == a2;
  }

  lemma DemoCommit(res: Time, w: World)
    requires w.pending == Some(Pending("default", [DEMO_ENTRY], res))
    requires "u" in w.db.users && "q" in w.db.rows && w.db.rows["q"].userId == "u"
    ensures !Disjoint(Do(Demo(res), w, Commit(res, res)).db)
    ensures Do(Demo(res), w, Commit(res, res)).db.users.Keys == w.db.users.Keys
  {
    assert [DEMO_ENTRY][0].userId in UsersOf([DEMO_ENTRY]);
    CommitFacts(w.db, "default", [DEMO_ENTRY], res);
    var after := Do(Demo(res), w, Commit(res, res)).db;
    assert "q" in after.rows && after.users["u"].hasAccess;
  }
}
