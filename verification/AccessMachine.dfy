/** One sign-up's view of the service: a machine with four states that every run follows. */
module AccessMachine {
  import opened Tables
  import opened Selection
  import opened Text
  import opened Lifecycle

  datatype Status = Absent | Waiting | Admitted | Out

  /** What a step means to one (project, email). */
  datatype Act = Idle | Join | Promote | AdminGrant | AdminRevoke | RowRemoved

  function Next(s: Status, a: Act): Option<Status> {
    match a
    case Idle => Some(s)
    case Join => Some(if s == Admitted then Admitted else Waiting)
    case Promote => if s == Waiting then Some(Admitted) else None
    case AdminGrant => if s == Absent then None else Some(Admitted)
    case AdminRevoke => if s == Absent then None else Some(if s == Admitted then Out else s)
    case RowRemoved => if s == Waiting then Some(Out) else None
  }

  ghost function UserStatus(db: Db, user: Id): Status
    requires user in db.users
  {
    if db.users[user].hasAccess then Admitted else if HasRow(db, user) then Waiting else Out
  }

  ghost function StatusOf(db: Db, project: string, email: string): Status {
    match FindUser(db, project, email)
    case None => Absent
    case Some(u) => UserStatus(db, u)
  }

  /** The answer of the sign-up endpoint in each state. */
  function Answer(s: Status): nat {
    match s
    case Absent => 201
    case Waiting => 409
    case Admitted => 205
    case Out => 201
  }

  ghost function ActOf(cfg: Settings, db: Db, e: Event, project: string, email: string): Act
    requires Enabled(db, e)
  {
    var found := FindUser(db, project, email);
    match e.step
    case SignUp(p, m, _, _, _) => if p == project && m == email then Join else Idle
    case Tick(p, order) =>
      if found.Some? && found.value in UsersOf(TickBatch(cfg, db, p, order, e.now)) then Promote else Idle
    case Grant(u) => if found == Some(u) then AdminGrant else Idle
    case Revoke(u, reason, _) => if found == Some(u) && !Blank(reason) then AdminRevoke else Idle
    case DeleteRow(r) => if r in db.rows && found == Some(db.rows[r].userId) then RowRemoved else Idle
    case DigestSent(_) => Idle
  }

  // ---------- who can change what ----------

  predicate HasAccess(db: Db, u: Id) {
    u in db.users && db.users[u].hasAccess
  }

  /** Who gains or loses access or a row, and by which step, without speaking of states: access
      comes from a grant of that user or a batch taking his row, and goes by a revoke of him
      with a reason; a row comes by a sign-up of its login, and goes by its deletion or along
      with a grant. */
  lemma ChangesHaveCauses(cfg: Settings, db: Db, e: Event, u: Id)
    requires Schema(db) && Disjoint(db) && Enabled(db, e)
    ensures var after := Apply(cfg, db, e);
            && (HasAccess(after, u) && !HasAccess(db, u) ==>
                  || e.step == Grant(u)
                  || (e.step.Tick? && HasRow(db, u) && !HasRow(after, u) && db.users[u].project == e.step.project))
            && (HasAccess(db, u) && !HasAccess(after, u) ==>
                  e.step.Revoke? && e.step.userId == u && !Blank(e.step.reason))
            && (HasRow(after, u) && !HasRow(db, u) ==>
                  && e.step.SignUp? && !HasAccess(db, u) && u in after.users
                  && after.users[u].project == e.step.project && after.users[u].email == e.step.email)
            && (HasRow(db, u) && !HasRow(after, u) ==>
                  || (e.step.DeleteRow? && e.step.rowId in db.rows && db.rows[e.step.rowId].userId == u)
                  || (HasAccess(after, u) && (e.step == Grant(u) || e.step.Tick?)))
  {
    match e.step
    case SignUp(_, _, _, _, _) => SignUpCauses(cfg, db, e, u);
    case Tick(_, _) => TickCauses(cfg, db, e, u);
    case _ => AdminCauses(cfg, db, e, u);
  }

  lemma SignUpCauses(cfg: Settings, db: Db, e: Event, u: Id)
    requires Schema(db) && Enabled(db, e) && e.step.SignUp?
    ensures var after := Apply(cfg, db, e);
            && (HasAccess(after, u) <==> HasAccess(db, u))
            && (HasRow(db, u) ==> HasRow(after, u))
            && (HasRow(after, u) && !HasRow(db, u) ==>
                  && !HasAccess(db, u) && u in after.users
                  && after.users[u].project == e.step.project && after.users[u].email == e.step.email)
  {
    var after := Apply(cfg, db, e);
    if r :| r in db.rows && db.rows[r].userId == u { assert after.rows[r].userId == u; }
    if r :| r in after.rows && after.rows[r].userId == u {
      if r in db.rows { assert db.rows[r].userId == u; }
    }
  }

  lemma TickCauses(cfg: Settings, db: Db, e: Event, u: Id)
    requires Schema(db) && Disjoint(db) && Enabled(db, e) && e.step.Tick?
    ensures var after := Apply(cfg, db, e);
            && (HasAccess(db, u) ==> HasAccess(after, u))
            && (HasAccess(after, u) && !HasAccess(db, u) ==>
                  HasRow(db, u) && !HasRow(after, u) && db.users[u].project == e.step.project)
            && (HasRow(after, u) ==> HasRow(db, u))
            && (HasRow(db, u) && !HasRow(after, u) ==> HasAccess(after, u))
  {
    var batch := TickBatch(cfg, db, e.step.project, e.step.order, e.now);
    if batch != [] {
      var after := Apply(cfg, db, e);
      TickCommits(cfg, db, e);
      BatchFacts(cfg, db, e.step.project, e.step.order, e.now);
      if r :| r in db.rows && db.rows[r].userId == u {
        assert OwnerAgrees(db, db.rows[r]);
        if r in RowsOf(batch) {
          var i :| 0 <= i < |batch| && batch[i].id == r;
          assert batch[i].userId in UsersOf(batch);
        } else {
          assert after.rows[r].userId == u;
        }
      }
      if u in UsersOf(batch) {
        var i :| 0 <= i < |batch| && batch[i].userId == u;
        assert db.rows[batch[i].id].userId == u && batch[i].id in RowsOf(batch);
        assert OwnerAgrees(db, db.rows[batch[i].id]);
      }
    }
  }

  lemma AdminCauses(cfg: Settings, db: Db, e: Event, u: Id)
    requires Schema(db) && Enabled(db, e) && !e.step.SignUp? && !e.step.Tick?
    ensures var after := Apply(cfg, db, e);
            && (HasAccess(after, u) && !HasAccess(db, u) ==> e.step == Grant(u))
            && (HasAccess(db, u) && !HasAccess(after, u) ==>
                  e.step.Revoke? && e.step.userId == u && !Blank(e.step.reason))
            && (HasRow(after, u) ==> HasRow(db, u))
            && (HasRow(db, u) && !HasRow(after, u) ==>
                  || (e.step.DeleteRow? && e.step.rowId in db.rows && db.rows[e.step.rowId].userId == u)
                  || (HasAccess(after, u) && e.step == Grant(u)))
  {
    var after := Apply(cfg, db, e);
    if r :| r in db.rows && db.rows[r].userId == u {
      assert OwnerAgrees(db, db.rows[r]);
      if r in after.rows { assert after.rows[r].userId == u; }
    }
    if r :| r in after.rows && after.rows[r].userId == u { assert db.rows[r].userId == u; }
  }

  // ---------- finding a login ----------

  lemma FindIs(db: Db, project: string, email: string, u: Id)
    requires OneLoginEach(db) && u in db.users && db.users[u].project == project && db.users[u].email == email
    ensures FindUser(db, project, email) == Some(u)
  {
  }

  lemma SameUsersSameFind(db: Db, after: Db, project: string, email: string)
    requires OneLoginEach(after) && after.users.Keys == db.users.Keys
    requires forall u :: u in db.users ==> SameLogin(db.users[u], after.users[u])
    ensures FindUser(after, project, email) == FindUser(db, project, email)
  {
  }

  /** A step that keeps a user's access flag and rows keeps its state. */
  lemma SameStatus(db: Db, after: Db, u: Id)
    requires u in db.users && u in after.users && after.users[u].hasAccess == db.users[u].hasAccess
    requires forall r :: r in after.rows && after.rows[r].userId == u ==> r in db.rows && db.rows[r].userId == u
    requires forall r :: r in db.rows && db.rows[r].userId == u ==> r in after.rows && after.rows[r].userId == u
    ensures UserStatus(after, u) == UserStatus(db, u)
  {
  }

  /** Whatever a sign-up adds carries the login it was asked for. */
  ghost predicate GrownBy(db: Db, after: Db, project: string, email: string) {
    && (forall u :: u in db.users ==> u in after.users && after.users[u] == db.users[u])
    && (forall u :: u in after.users && u !in db.users ==>
          after.users[u].project == project && after.users[u].email == email)
    && (forall r :: r in db.rows ==> r in after.rows && after.rows[r] == db.rows[r])
    && (forall r :: r in after.rows && r !in db.rows ==> OwnedBy(after, after.rows[r], project, email))
  }

  predicate OwnedBy(db: Db, row: Row, project: string, email: string) {
    row.userId in db.users && db.users[row.userId].project == project && db.users[row.userId].email == email
  }

  lemma SignUpGrows(cfg: Settings, db: Db, e: Event)
    requires Enabled(db, e) && e.step.SignUp?
    ensures GrownBy(db, Apply(cfg, db, e), e.step.project, e.step.email)
  {
  }

  lemma GrowthSparesOthers(db: Db, after: Db, owner: string, ownerEmail: string, project: string, email: string)
    requires GrownBy(db, after, owner, ownerEmail) && OneLoginEach(after) && !(owner == project && ownerEmail == email)
    ensures StatusOf(after, project, email) == StatusOf(db, project, email)
  {
  }

  lemma OthersSignUp(cfg: Settings, db: Db, e: Event, project: string, email: string)
    requires Schema(db) && Enabled(db, e) && e.step.SignUp? && !(e.step.project == project && e.step.email == email)
    ensures StatusOf(Apply(cfg, db, e), project, email) == StatusOf(db, project, email)
  {
    StepKeepsSchema(cfg, db, e);
    SignUpGrows(cfg, db, e);
    GrowthSparesOthers(db, Apply(cfg, db, e), e.step.project, e.step.email, project, email);
  }

  lemma OwnSignUp(cfg: Settings, db: Db, e: Event)
    requires Schema(db) && Enabled(db, e) && e.step.SignUp?
    ensures var s := StatusOf(db, e.step.project, e.step.email);
            StatusOf(Apply(cfg, db, e), e.step.project, e.step.email) == if s == Admitted then Admitted else Waiting
  {
    var after := Apply(cfg, db, e);
    StepKeepsSchema(cfg, db, e);
    var found := FindUser(db, e.step.project, e.step.email);
    var u := if found.Some? then found.value else e.step.userId;
    FindIs(after, e.step.project, e.step.email, u);
    if StatusOf(db, e.step.project, e.step.email) in {Absent, Out} {
      assert e.step.rowId in after.rows && after.rows[e.step.rowId].userId == u;
    }
  }

  lemma SignUpSimulates(cfg: Settings, db: Db, e: Event, project: string, email: string)
    requires Schema(db) && Enabled(db, e) && e.step.SignUp?
    ensures Next(StatusOf(db, project, email), ActOf(cfg, db, e, project, email))
         == Some(StatusOf(Apply(cfg, db, e), project, email))
  {
    if e.step.project == project && e.step.email == email {
      OwnSignUp(cfg, db, e);
    } else {
      OthersSignUp(cfg, db, e, project, email);
    }
  }

  lemma TickSimulates(cfg: Settings, db: Db, e: Event, project: string, email: string)
    requires Schema(db) && Disjoint(db) && Enabled(db, e) && e.step.Tick?
    ensures Next(StatusOf(db, project, email), ActOf(cfg, db, e, project, email))
         == Some(StatusOf(Apply(cfg, db, e), project, email))
  {
    if TickBatch(cfg, db, e.step.project, e.step.order, e.now) != [] {
      TickMoves(cfg, db, e, project, email);
    }
  }

  lemma TickMoves(cfg: Settings, db: Db, e: Event, project: string, email: string)
    requires Schema(db) && Disjoint(db) && Enabled(db, e) && e.step.Tick?
    requires TickBatch(cfg, db, e.step.project, e.step.order, e.now) != []
    ensures var found := FindUser(db, project, email);
            var promoted :=
              found.Some? && found.value in UsersOf(TickBatch(cfg, db, e.step.project, e.step.order, e.now));
            && (promoted ==>
                  StatusOf(db, project, email) == Waiting && StatusOf(Apply(cfg, db, e), project, email) == Admitted)
            && (!promoted ==> StatusOf(Apply(cfg, db, e), project, email) == StatusOf(db, project, email))
  {
    TickCommits(cfg, db, e);
    StepKeepsSchema(cfg, db, e);
    BatchMoves(db, Apply(cfg, db, e), TickBatch(cfg, db, e.step.project, e.step.order, e.now), e.at, project, email);
  }

  lemma BatchMoves(db: Db, after: Db, batch: seq<Entry>, at: Time, project: string, email: string)
    requires Schema(db) && Disjoint(db) && OneLoginEach(after)
    requires Current(db, batch) && Promoted(db, after, batch, at)
    ensures var found := FindUser(db, project, email);
            var promoted := found.Some? && found.value in UsersOf(batch);
            && (promoted ==> StatusOf(db, project, email) == Waiting && StatusOf(after, project, email) == Admitted)
            && (!promoted ==> StatusOf(after, project, email) == StatusOf(db, project, email))
  {
    SameUsersSameFind(db, after, project, email);
    var found := FindUser(db, project, email);
    if found.Some? {
      BatchStatus(db, after, batch, found.value, at);
    }
  }

  /** A batch admits its own users, all of them waiting, and moves nobody else. */
  lemma BatchStatus(db: Db, after: Db, batch: seq<Entry>, u: Id, at: Time)
    requires Schema(db) && Disjoint(db) && u in db.users && u in after.users
    requires Current(db, batch) && Promoted(db, after, batch, at)
    ensures u in UsersOf(batch) ==> UserStatus(db, u) == Waiting && UserStatus(after, u) == Admitted
    ensures u !in UsersOf(batch) ==> UserStatus(after, u) == UserStatus(db, u)
  {
  }

  lemma GrantStatus(db: Db, user: Id, at: Time, u: Id)
    requires user in db.users && u in db.users
    ensures UserStatus(GrantDb(db, user, at), u) == if u == user then Admitted else UserStatus(db, u)
  {
    if u != user { SameStatus(db, GrantDb(db, user, at), u); }
  }

  lemma RevokeStatus(db: Db, user: Id, reason: string, admin: string, at: Time, u: Id)
    requires user in db.users && u in db.users && Disjoint(db) && !Blank(reason)
    ensures UserStatus(RevokeDb(db, user, reason, admin, at), u)
         == if u == user && UserStatus(db, u) == Admitted then Out else UserStatus(db, u)
  {
  }

  lemma RemoveStatus(db: Db, row: Id, u: Id)
    requires u in db.users && Disjoint(db) && OneRowEach(db)
    ensures UserStatus(DeleteRows(db, {row}), u)
         == if row in db.rows && db.rows[row].userId == u then Out else UserStatus(db, u)
  {
    var after := DeleteRows(db, {row});
    if !(row in db.rows && db.rows[row].userId == u) { SameStatus(db, after, u); }
  }

  lemma AdminKeepsUsers(cfg: Settings, db: Db, e: Event, project: string, email: string)
    requires Schema(db) && Enabled(db, e) && !e.step.SignUp? && !e.step.Tick?
    ensures FindUser(Apply(cfg, db, e), project, email) == FindUser(db, project, email)
    ensures Apply(cfg, db, e).users.Keys == db.users.Keys
  {
    StepShrinks(cfg, db, e);
    ShrunkKeepsSchema(db, Apply(cfg, db, e));
    SameUsersSameFind(db, Apply(cfg, db, e), project, email);
  }

  lemma GrantSimulates(cfg: Settings, db: Db, e: Event, project: string, email: string)
    requires Schema(db) && Disjoint(db) && Enabled(db, e) && e.step.Grant?
    ensures Next(StatusOf(db, project, email), ActOf(cfg, db, e, project, email))
         == Some(StatusOf(Apply(cfg, db, e), project, email))
  {
    AdminKeepsUsers(cfg, db, e, project, email);
    var found := FindUser(db, project, email);
    if found.Some? {
      if e.step.userId in db.users { GrantStatus(db, e.step.userId, e.at, found.value); }
    }
  }

  lemma RevokeSimulates(cfg: Settings, db: Db, e: Event, project: string, email: string)
    requires Schema(db) && Disjoint(db) && Enabled(db, e) && e.step.Revoke?
    ensures Next(StatusOf(db, project, email), ActOf(cfg, db, e, project, email))
         == Some(StatusOf(Apply(cfg, db, e), project, email))
  {
    AdminKeepsUsers(cfg, db, e, project, email);
    var found := FindUser(db, project, email);
    if found.Some? {
      var Revoke(user, reason, admin) := e.step;
      if user in db.users && !Blank(reason) { RevokeStatus(db, user, reason, admin, e.at, found.value); }
    }
  }

  lemma RemoveSimulates(cfg: Settings, db: Db, e: Event, project: string, email: string)
    requires Schema(db) && Disjoint(db) && Enabled(db, e) && e.step.DeleteRow?
    ensures Next(StatusOf(db, project, email), ActOf(cfg, db, e, project, email))
         == Some(StatusOf(Apply(cfg, db, e), project, email))
  {
    AdminKeepsUsers(cfg, db, e, project, email);
    var found := FindUser(db, project, email);
    if found.Some? {
      RemoveStatus(db, e.step.rowId, found.value);
    }
  }

  lemma DigestSimulates(cfg: Settings, db: Db, e: Event, project: string, email: string)
    requires Schema(db) && Disjoint(db) && Enabled(db, e) && e.step.DigestSent?
    ensures Next(StatusOf(db, project, email), ActOf(cfg, db, e, project, email))
         == Some(StatusOf(Apply(cfg, db, e), project, email))
  {
  }

  lemma StepSimulates(cfg: Settings, db: Db, at: Time, e: Event, project: string, email: string)
    requires Inv(db, at) && at <= e.at && Enabled(db, e)
    ensures Next(StatusOf(db, project, email), ActOf(cfg, db, e, project, email))
         == Some(StatusOf(Apply(cfg, db, e), project, email))
  {
    if e.step.SignUp? {
      SignUpSimulates(cfg, db, e, project, email);
    } else if e.step.Tick? {
      TickSimulates(cfg, db, e, project, email);
    } else {
      match e.step
      case Grant(_) => GrantSimulates(cfg, db, e, project, email);
      case Revoke(_, _, _) => RevokeSimulates(cfg, db, e, project, email);
      case DeleteRow(_) => RemoveSimulates(cfg, db, e, project, email);
      case DigestSent(_) => DigestSimulates(cfg, db, e, project, email);
    }
  }

  ghost function ActsOf(cfg: Settings, db: Db, at: Time, run: seq<Event>, project: string, email: string): seq<Act>
    requires Valid(cfg, db, at, run)
    decreases |run|
  {
    if run == [] then []
    else
      var rest := ActsOf(cfg, Apply(cfg, db, run[0]), run[0].at, run[1..], project, email);
      [ActOf(cfg, db, run[0], project, email)] + rest
  }

  function Walk(s: Status, acts: seq<Act>): Option<Status>
    decreases |acts|
  {
    if acts == [] then Some(s)
    else
      match Next(s, acts[0])
      case None => None
      case Some(t) => Walk(t, acts[1..])
  }

  /** Every run of the service, seen from one (project, email), is a walk of the machine
      from the state it started in to the state it ends in. */
  lemma {:induction false} RunSimulates(cfg: Settings, db: Db, at: Time, run: seq<Event>, project: string,
                                        email: string)
    requires Inv(db, at) && Valid(cfg, db, at, run)
    ensures Walk(StatusOf(db, project, email), ActsOf(cfg, db, at, run, project, email))
         == Some(StatusOf(Run(cfg, db, at, run), project, email))
    decreases |run|
  {
    if run != [] {
      StepSimulates(cfg, db, at, run[0], project, email);
      StepKeepsInv(cfg, db, at, run[0]);
      var rest := ActsOf(cfg, Apply(cfg, db, run[0]), run[0].at, run[1..], project, email);
      assert ([ActOf(cfg, db, run[0], project, email)] + rest)[1..] == rest;
      RunSimulates(cfg, Apply(cfg, db, run[0]), run[0].at, run[1..], project, email);
    }
  }
}
