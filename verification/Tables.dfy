/** The three tables of the service, the constraints the migrations put on them,
    and the effect of each SQL statement the repositories run. */
module Tables {

  type Id = string

  /** Nanoseconds since the Unix epoch, in UTC. */
  type Time = int

  const HOUR: Time := 3_600_000_000_000

  datatype Option<+T> = None | Some(value: T)

  datatype Profile = Profile(firstname: string, lastname: string, ip: Option<string>)

  datatype User = User(
    project: string,
    email: string,
    profile: Profile,
    createdAt: Time,
    hasAccess: bool,
    grantedAt: Option<Time>,
    grantedBy: Option<string>,
    revokedAt: Option<Time>,
    revokedBy: Option<string>,
    revokeReason: Option<string>)

  datatype Row = Row(project: string, userId: Id, createdAt: Time, weight: nat)

  datatype Stamp = Stamp(project: string, key: string)

  datatype Db = Db(users: map<Id, User>, rows: map<Id, Row>, stamps: map<Stamp, Time>)

  const WAITLIST_KEY := "waitlist_last_success"
  const DIGEST_KEY := "digest_last_success"

  /** The generated column weighted_created_at. */
  function Weighted(r: Row): Time {
    r.createdAt - r.weight * HOUR
  }

  /** Primary and foreign keys, the two unique indexes, and the fact that a waiting row
      carries the project of its user; the last one is no constraint of the migrations,
      it is kept because sign-up writes both from the same request. */
  ghost predicate Schema(db: Db) {
    RowsOwned(db) && OneRowEach(db) && OneLoginEach(db)
  }

  ghost predicate RowsOwned(db: Db) {
    forall r :: r in db.rows ==> OwnerAgrees(db, db.rows[r])
  }

  ghost predicate OneRowEach(db: Db) {
    forall r, q :: r in db.rows && q in db.rows && db.rows[r].userId == db.rows[q].userId ==> r == q
  }

  ghost predicate OneLoginEach(db: Db) {
    forall u, v :: u in db.users && v in db.users && SameLogin(db.users[u], db.users[v]) ==> u == v
  }

  predicate OwnerAgrees(db: Db, row: Row) {
    row.userId in db.users && db.users[row.userId].project == row.project
  }

  predicate SameLogin(u: User, v: User) {
    u.project == v.project && u.email == v.email
  }

  ghost predicate HasRow(db: Db, user: Id) {
    exists r :: r in db.rows && db.rows[r].userId == user
  }

  /** The user SELECT ... WHERE project_slug = ? AND email = ? finds. */
  ghost function FindUser(db: Db, project: string, email: string): (found: Option<Id>)
    ensures found.Some? ==>
              && found.value in db.users
              && db.users[found.value].project == project && db.users[found.value].email == email
    ensures found.None? ==>
              forall u :: u in db.users ==> !(db.users[u].project == project && db.users[u].email == email)
  {
    if u: Id :| u in db.users && db.users[u].project == project && db.users[u].email == email then Some(u) else None
  }

  // ---------- statements ----------

  function NewUser(project: string, email: string, profile: Profile, at: Time): User {
    User(project, email, profile, at, false, None, None, None, None, None)
  }

  function Granted(u: User, source: string, at: Time): User {
    u.(hasAccess := true, grantedAt := Some(at), grantedBy := Some(source),
    revokedAt := None, revokedBy := None, revokeReason := None)
  }

  function Revoked(u: User, reason: string, admin: string, at: Time): User {
    u.(hasAccess := false, revokedAt := Some(at), revokedBy := Some(admin), revokeReason := Some(reason))
  }

  function InsertUser(db: Db, id: Id, user: User): Db {
    db.(users := db.users[id := user])
  }

  function InsertRow(db: Db, id: Id, row: Row): Db {
    db.(rows := db.rows[id := row])
  }

  function GrantUsers(db: Db, ids: set<Id>, source: string, at: Time): Db {
    db.(users := map u | u in db.users :: if u in ids then Granted(db.users[u], source, at) else db.users[u])
  }

  function RevokeUser(db: Db, id: Id, reason: string, admin: string, at: Time): Db {
    if id in db.users then db.(users := db.users[id := Revoked(db.users[id], reason, admin, at)]) else db
  }

  function DeleteRows(db: Db, ids: set<Id>): Db {
    db.(rows := map r | r in db.rows && r !in ids :: db.rows[r])
  }

  function DeleteRowsOf(db: Db, user: Id): Db {
    db.(rows := map r | r in db.rows && db.rows[r].userId != user :: db.rows[r])
  }

  function UpsertStamp(db: Db, key: Stamp, at: Time): Db {
    db.(stamps := db.stamps[key := at])
  }
}
