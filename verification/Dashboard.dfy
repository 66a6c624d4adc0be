/** The dashboard's two counters: whom they count, and how steps move them. */
module Dashboard {
  import opened Tables
  import opened Selection
  import opened Lifecycle
  import opened Scheduler
  import opened SplitScheduler

  /** An empty slug means every project. */
  predicate InScope(slug: string, project: string) {
    slug == "" || project == slug
  }

  function WaitingRows(db: Db, slug: string): set<Id> {
    set r | r in db.rows && InScope(slug, db.rows[r].project)
  }

  function WithAccess(db: Db, slug: string): set<Id> {
    set u | u in db.users && db.users[u].hasAccess && InScope(slug, db.users[u].project)
  }

  function UsersInScope(db: Db, slug: string): set<Id> {
    set u | u in db.users && InScope(slug, db.users[u].project)
  }

  ghost function Engaged(db: Db, slug: string): set<Id> {
    set u | u in db.users && InScope(slug, db.users[u].project) && (db.users[u].hasAccess || HasRow(db, u))
  }

  function Owners(db: Db, rows: set<Id>): set<Id>
    requires rows <= db.rows.Keys
  {
    set r | r in rows :: db.rows[r].userId
  }

  /** Different rows belong to different users. */
  lemma {:induction false} OwnersCount(db: Db, rows: set<Id>)
    requires rows <= db.rows.Keys && OneRowEach(db)
    ensures |Owners(db, rows)| == |rows|
    decreases |rows|
  {
    if rows != {} {
      var r :| r in rows;
      OwnersCount(db, rows - {r});
      assert Owners(db, rows) == Owners(db, rows - {r}) + {db.rows[r].userId};
    }
  }

  /** Users in scope who have access and still own a waiting row. */
  ghost function StaleInScope(db: Db, slug: string): set<Id> {
    set u | u in Stale(db) && InScope(slug, db.users[u].project)
  }

  lemma OwnersAre(db: Db, slug: string)
    requires RowsOwned(db)
    ensures Owners(db, WaitingRows(db, slug)) + WithAccess(db, slug) == Engaged(db, slug)
    ensures Owners(db, WaitingRows(db, slug)) * WithAccess(db, slug) == StaleInScope(db, slug)
  {
    var waiting := Owners(db, WaitingRows(db, slug));
    forall u | u in waiting ensures u in Engaged(db, slug) && HasRow(db, u) {
      var r :| r in WaitingRows(db, slug) && db.rows[r].userId == u;
      assert OwnerAgrees(db, db.rows[r]);
    }
    forall u | u in Engaged(db, slug) && HasRow(db, u) ensures u in waiting {
      var r :| r in db.rows && db.rows[r].userId == u;
      assert OwnerAgrees(db, db.rows[r]);
      assert r in WaitingRows(db, slug);
    }
  }

  lemma SizeOfUnion<T>(a: set<T>, b: set<T>)
    ensures |a| + |b| == |a + b| + |a * b|
  {
    assert a + b == a + (b - a) && b == (b - a) + a * b;
  }

  /** Waiting plus with-access counts every user it speaks of once and the stale ones twice;
      so it counts each user once exactly when nobody in scope is stale. */
  lemma TotalCountsUsersOnce(db: Db, slug: string)
    requires Schema(db)
    ensures |WaitingRows(db, slug)| + |WithAccess(db, slug)| == |Engaged(db, slug)| + |StaleInScope(db, slug)|
    ensures |WaitingRows(db, slug)| + |WithAccess(db, slug)| == |Engaged(db, slug)| <==> StaleInScope(db, slug) == {}
    ensures |Engaged(db, slug)| <= |UsersInScope(db, slug)| <= |db.users|
  {
    OwnersCount(db, WaitingRows(db, slug));
    OwnersAre(db, slug);
    SizeOfUnion(Owners(db, WaitingRows(db, slug)), WithAccess(db, slug));
    SubsetSize(Engaged(db, slug), UsersInScope(db, slug));
    SubsetSize(UsersInScope(db, slug), db.users.Keys);
    assert |db.users.Keys| == |db.users|;
  }

  /** While access and waiting are apart the total never exceeds the number of users. */
  lemma TotalWithinUsers(db: Db, slug: string)
    requires Schema(db) && Disjoint(db)
    ensures |WaitingRows(db, slug)| + |WithAccess(db, slug)| == |Engaged(db, slug)| <= |UsersInScope(db, slug)|
  {
    DisjointIsNoStale(db);
    TotalCountsUsersOnce(db, slug);
  }

  /** A split run can end with a total of two for a single user. */
  lemma OverCountCanHappen(res: Time, person: Profile) returns (acts: seq<Action>)
    requires res > 0
    ensures Possible(Demo(res), DemoStart(person), acts) && Timed(res, 0, acts) && OthersRecorded(res, acts)
    ensures var db := After(Demo(res), DemoStart(person), acts).db;
            |db.users| == 1 && |WaitingRows(db, "")| + |WithAccess(db, "")| == 2
  {
    acts := StaleCanHappen(res, person);
    var db := After(Demo(res), DemoStart(person), acts).db;
    StaleOrigin(Demo(res), DemoStart(person), acts);
    DisjointIsNoStale(db);
    assert |db.users.Keys| == |db.users|;
    assert Stale(db) == {"u"} && StaleInScope(db, "") == {"u"} && Engaged(db, "") == {"u"};
    TotalCountsUsersOnce(db, "");
  }

  lemma DistinctBatch(cfg: Settings, db: Db, project: string, order: seq<Id>, now: Time)
    requires OneRowEach(db) && Listing(db, project, order)
    ensures |RowsOf(TickBatch(cfg, db, project, order, now))| == |TickBatch(cfg, db, project, order, now)|
  {
    var batch := TickBatch(cfg, db, project, order, now);
    if Due(cfg, db, project, now) {
      var k := BatchIsPrefix(cfg, db, project, order, now);
      PrefixSize(order, k);
      forall i | 0 <= i < k ensures batch[i].id == order[i] {}
      assert RowsOf(batch) == FirstOf(order, k);
    } else {
      assert RowsOf(batch) == {};
    }
  }

  /** A batch of k takes k off the waiting counter and puts k on the access counter, in its
      project and in the total, and touches no other project's counters. */
  lemma BatchConserves(cfg: Settings, db: Db, e: Event, slug: string)
    requires Schema(db) && Disjoint(db) && Enabled(db, e) && e.step.Tick?
    ensures var k := if slug == "" || slug == e.step.project
                     then |TickBatch(cfg, db, e.step.project, e.step.order, e.now)| else 0;
            && |WaitingRows(Apply(cfg, db, e), slug)| + k == |WaitingRows(db, slug)|
            && |WithAccess(Apply(cfg, db, e), slug)| == |WithAccess(db, slug)| + k
  {
    var project := e.step.project;
    var batch := TickBatch(cfg, db, project, e.step.order, e.now);
    if batch != [] {
      TickCommits(cfg, db, e);
      BatchFacts(cfg, db, project, e.step.order, e.now);
      DistinctBatch(cfg, db, project, e.step.order, e.now);
      PromotedCounts(db, Apply(cfg, db, e), project, batch, e.at, slug);
    }
  }

  lemma PromotedCounts(db: Db, after: Db, project: string, batch: seq<Entry>, at: Time, slug: string)
    requires Schema(db) && Disjoint(db) && Current(db, batch) && Promoted(db, after, batch, at)
    requires forall i :: 0 <= i < |batch| ==> db.rows[batch[i].id].project == project
    ensures var k := if InScope(slug, project) then |RowsOf(batch)| else 0;
            && |WaitingRows(after, slug)| + k == |WaitingRows(db, slug)|
            && |WithAccess(after, slug)| == |WithAccess(db, slug)| + k
  {
    var rows, users := RowsOf(batch), UsersOf(batch);
    assert users == Owners(db, rows) by {
      forall i | 0 <= i < |batch| ensures batch[i].id in rows && db.rows[batch[i].id].userId == batch[i].userId {}
    }
    OwnersCount(db, rows);
    forall u | u in users ensures u in db.users && db.users[u].project == project && !db.users[u].hasAccess {
      var r :| r in rows && db.rows[r].userId == u;
      assert OwnerAgrees(db, db.rows[r]);
    }
    RowsLeave(db, after, rows, project, slug);
    UsersJoin(db, after, users, project, at, slug);
  }

  lemma RowsLeave(db: Db, after: Db, rows: set<Id>, project: string, slug: string)
    requires after.rows.Keys == db.rows.Keys - rows && rows <= db.rows.Keys
    requires forall r :: r in after.rows ==> after.rows[r] == db.rows[r]
    requires forall r :: r in rows ==> db.rows[r].project == project
    ensures |WaitingRows(after, slug)| + (if InScope(slug, project) then |rows| else 0) == |WaitingRows(db, slug)|
  {
    var left := WaitingRows(after, slug);
    if InScope(slug, project) {
      assert WaitingRows(db, slug) == left + rows;
      assert left !! rows;
    } else {
      assert WaitingRows(db, slug) == left;
    }
  }

  lemma UsersJoin(db: Db, after: Db, users: set<Id>, project: string, at: Time, slug: string)
    requires after.users.Keys == db.users.Keys
    requires forall u :: u in db.users ==>
                           after.users[u] == if u in users then Granted(db.users[u], "scheduler", at) else db.users[u]
    requires forall u :: u in users ==> u in db.users && db.users[u].project == project && !db.users[u].hasAccess
    ensures |WithAccess(after, slug)| == |WithAccess(db, slug)| + (if InScope(slug, project) then |users| else 0)
  {
    var before := WithAccess(db, slug);
    if InScope(slug, project) {
      assert WithAccess(after, slug) == before + users;
      assert before !! users;
    } else {
      assert WithAccess(after, slug) == before;
    }
  }
}
