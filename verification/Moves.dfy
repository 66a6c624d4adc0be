/** The machine allows no more than the service does: every move it has is made by some step
    from some state of the invariant. */
module Moves {
  import opened Tables
  import opened Selection
  import opened Text
  import opened Lifecycle
  import opened AccessMachine

  /** Some step, from a state of the invariant, takes the login from `s` to `t` by `a`. */
  ghost predicate Happens(s: Status, a: Act, t: Status, project: string, email: string) {
    exists cfg: Settings, db: Db, at: Time, e: Event ::
      && Inv(db, at) && at <= e.at && Enabled(db, e)
      && StatusOf(db, project, email) == s && ActOf(cfg, db, e, project, email) == a
      && StatusOf(Apply(cfg, db, e), project, email) == t
  }

  /** The moves of the machine are exactly the moves that happen, whatever the login. */
  lemma MovesExactly(s: Status, a: Act, t: Status, project: string, email: string, person: Profile)
    ensures Next(s, a) == Some(t) <==> Happens(s, a, t, project, email)
  {
    if Next(s, a) == Some(t) {
      var cfg, db, e := MoveMade(s, a, project, email, person);
      StepSimulates(cfg, db, 0, e, project, email);
    }
    if Happens(s, a, t, project, email) {
      var cfg: Settings, db: Db, at: Time, e: Event :|
        && Inv(db, at) && at <= e.at && Enabled(db, e)
        && StatusOf(db, project, email) == s && ActOf(cfg, db, e, project, email) == a
        && StatusOf(Apply(cfg, db, e), project, email) == t;
      StepSimulates(cfg, db, at, e, project, email);
    }
  }

  /** The tables with one user, who may wait in one row. */
  function OneUser(u: Id, user: User, row: Id, waits: bool): Db {
    Db(map[u := user], if waits then map[row := Row(user.project, u, 0, 0)] else map[], map[])
  }

  lemma OneUserStatus(u: Id, user: User, row: Id, waits: bool)
    requires user.hasAccess ==> !waits
    ensures var db := OneUser(u, user, row, waits);
            && Schema(db) && Disjoint(db) && (AuditOk(user, 0) ==> Audited(db, 0))
            && FindUser(db, user.project, user.email) == Some(u)
            && StatusOf(db, user.project, user.email)
               == if user.hasAccess then Admitted else if waits then Waiting else Out
  {
    var db := OneUser(u, user, row, waits);
    FindIs(db, user.project, user.email, u);
    if waits { assert row in db.rows && db.rows[row].userId == u; }
  }

  lemma StateMade(s: Status, project: string, email: string, person: Profile, u: Id, row: Id) returns (db: Db)
    ensures Inv(db, 0) && StatusOf(db, project, email) == s
    ensures db.users.Keys <= {u} && db.rows.Keys <= {row} && db.stamps == map[]
    ensures s != Absent ==> FindUser(db, project, email) == Some(u)
    ensures s == Waiting ==> db.rows == map[row := Row(project, u, 0, 0)]
  {
    if s == Absent {
      db := EMPTY;
    } else {
      var user := NewUser(project, email, person, 0);
      if s == Admitted { user := Granted(user, "admin", 0); }
      OneUserStatus(u, user, row, s == Waiting);
      db := OneUser(u, user, row, s == Waiting);
    }
  }

  lemma MoveMade(s: Status, a: Act, project: string, email: string, person: Profile)
    returns (cfg: Settings, db: Db, e: Event)
    requires Next(s, a).Some?
    ensures Inv(db, 0) && 0 <= e.at && Enabled(db, e)
    ensures StatusOf(db, project, email) == s && ActOf(cfg, db, e, project, email) == a
  {
    var u, row := "u", "r";
    cfg := Settings(1, 0, map[project := Override(None, None, false)]);
    db := StateMade(s, project, email, person, u, row);
    match a
    case Idle => e := Event(0, 0, DigestSent(project));
    case Join => e := Event(0, 0, SignUp(project, email, person, "v", "q"));
    case AdminGrant => e := Event(0, 0, Grant(u));
    case AdminRevoke => e := Event(0, 0, Revoke(u, "x", "admin"));
    case RowRemoved => e := Event(0, 0, DeleteRow(row));
    case Promote =>
      e := Event(0, 0, Tick(project, [row]));
      OneRipe(cfg, db, project, u, row);
  }

  lemma OneRipe(cfg: Settings, db: Db, project: string, u: Id, row: Id)
    requires cfg == Settings(1, 0, map[project := Override(None, None, false)])
    requires db.rows == map[row := Row(project, u, 0, 0)] && db.stamps == map[]
    ensures Listing(db, project, [row]) && u in UsersOf(TickBatch(cfg, db, project, [row], 0))
  {
    var listed := [row];
    assert listed[0] == row;
    var entry := EntryOf(db, row);
    var head := Take(Entries(db, listed), 1);
    assert head == [entry] && Ripe(entry, 0, 0);
    var batch := TickBatch(cfg, db, project, listed, 0);
    assert batch == RipeOnly(head, 0, 0);
    RipeMember(head, |head|, 0, 0, entry);
    var i :| 0 <= i < |batch| && batch[i] == entry;
    assert batch[i].userId == u;
  }
}
