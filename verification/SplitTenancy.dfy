/** Projects share the scheduler process as well: what a split run does to one project is what
    that project's own actions do to it. */
module SplitTenancy {
  import opened Tables
  import opened Selection
  import opened Lifecycle
  import opened SplitScheduler
  import opened Tenancy

  /** The pending batch, if it is the project's. */
  function PendingOf(w: World, project: string): Option<Pending> {
    if w.pending.Some? && w.pending.value.project == project then w.pending else None
  }

  /** `part` is the world as the project alone would see it; it has drawn fewer identifiers. */
  ghost predicate IsPart(part: World, w: World, project: string) {
    part.db == Part(w.db, project) && part.pending == PendingOf(w, project) && part.issued <= w.issued
  }

  /** Whether an action acts on the project; commits and abandonments name nobody, they are
      those of the batch pending. */
  predicate Owns(w: World, a: Action, project: string) {
    match a
    case Other(e) => OwnerOf(w.db, e.step) == Some(project)
    case Snapshot(p, _, _, _) => p == project
    case Commit(_, _) => PendingOf(w, project).Some?
    case Abandon => PendingOf(w, project).Some?
  }

  ghost function OwnActs(cfg: Settings, w: World, acts: seq<Action>, project: string): seq<Action>
    requires Possible(cfg, w, acts)
    decreases |acts|
  {
    if acts == [] then []
    else
      var rest := OwnActs(cfg, Do(cfg, w, acts[0]), acts[1..], project);
      if Owns(w, acts[0], project) then [acts[0]] + rest else rest
  }

  lemma PendingUsers(w: World, p: Pending)
    requires Schema(w.db) && Traceable(w, p)
    ensures forall u :: u in UsersOf(p.batch) ==> u in w.db.users && w.db.users[u].project == p.project
    ensures forall r :: r in RowsOf(p.batch) && r in w.db.rows ==> w.db.rows[r].project == p.project
  {
    forall r | r in RowsOf(p.batch) && r in w.db.rows ensures w.db.rows[r].project == p.project {
      assert OwnerAgrees(w.db, w.db.rows[r]);
    }
  }

  lemma OwnCommit(cfg: Settings, w: World, part: World, a: Action, project: string)
    requires SplitInv(w) && IsPart(part, w, project) && Can(w, a) && a.Commit? && Owns(w, a, project)
    ensures Can(part, a) && IsPart(Do(cfg, part, a), Do(cfg, w, a), project)
  {
    var p := w.pending.value;
    PendingUsers(w, p);
    assert p.batch[0].userId in UsersOf(p.batch);
    CommitInPart(w.db, project, p.batch, a.at);
  }

  lemma OthersCommit(cfg: Settings, w: World, part: World, a: Action, project: string)
    requires SplitInv(w) && IsPart(part, w, project) && Can(w, a) && a.Commit? && !Owns(w, a, project)
    ensures IsPart(part, Do(cfg, w, a), project)
  {
    var p := w.pending.value;
    PendingUsers(w, p);
    CommitOutsidePart(w.db, p.project, p.batch, a.at, project);
  }

  lemma OwnSnapshot(cfg: Settings, w: World, part: World, a: Action)
    requires SplitInv(w) && a.Snapshot? && IsPart(part, w, a.project) && Can(w, a)
    ensures Can(part, a) && IsPart(Do(cfg, part, a), Do(cfg, w, a), a.project)
  {
    PartListing(w.db, a.project, a.order);
    assert Chosen(cfg, part.db, a.project, a.order, a.now, a.clock)
        == Chosen(cfg, w.db, a.project, a.order, a.now, a.clock);
  }

  lemma OwnAct(cfg: Settings, w: World, part: World, a: Action, project: string)
    requires SplitInv(w) && IsPart(part, w, project) && Can(w, a) && Owns(w, a, project)
    ensures Can(part, a) && IsPart(Do(cfg, part, a), Do(cfg, w, a), project)
  {
    match a
    case Other(e) => OwnStep(cfg, w.db, e, project);
    case Snapshot(_, _, _, _) => OwnSnapshot(cfg, w, part, a);
    case Commit(_, _) => OwnCommit(cfg, w, part, a, project);
    case Abandon =>
  }

  lemma OthersAct(cfg: Settings, w: World, part: World, a: Action, project: string)
    requires SplitInv(w) && IsPart(part, w, project) && Can(w, a) && !Owns(w, a, project)
    ensures IsPart(part, Do(cfg, w, a), project)
  {
    match a
    case Other(e) => OthersStep(cfg, w.db, e, project);
    case Commit(_, _) => OthersCommit(cfg, w, part, a, project);
    case _ =>
  }

  /** Tenant non-interference in split runs: the final users, rows and stamps of a project,
      and the batch it has pending, are those of the run of its own actions alone. */
  lemma {:induction false} SplitRunRespectsTenants(cfg: Settings, w: World, part: World, acts: seq<Action>,
                                                   project: string)
    requires SplitInv(w) && Possible(cfg, w, acts) && IsPart(part, w, project)
    ensures Possible(cfg, part, OwnActs(cfg, w, acts, project))
    ensures IsPart(After(cfg, part, OwnActs(cfg, w, acts, project)), After(cfg, w, acts), project)
    decreases |acts|
  {
    if acts != [] {
      var a, next := acts[0], Do(cfg, w, acts[0]);
      DoKeepsSplitInv(cfg, w, a);
      if Owns(w, a, project) {
        OwnAct(cfg, w, part, a, project);
        SplitRunRespectsTenants(cfg, next, Do(cfg, part, a), acts[1..], project);
        Prepend(cfg, part, a, OwnActs(cfg, next, acts[1..], project));
      } else {
        OthersAct(cfg, w, part, a, project);
        SplitRunRespectsTenants(cfg, next, part, acts[1..], project);
      }
    }
  }
}
