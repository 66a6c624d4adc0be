/** The endpoints that change state, each against the step it is meant to be: every call can
    fail, and the committed tables are then as before. */
module Handlers {
  import opened Tables
  import opened Selection
  import opened Text
  import opened Utf8
  import opened Lifecycle
  import opened AccessMachine
  import opened Database
  import opened Repositories

  /** The calls that can fail. */
  datatype EndpointCall =
    | BeginTx | LookUp | CreateUser | AddRow | DeleteRowCall | GrantCall | RevokeCall | CountAffected | CommitTx | Fetch

  datatype Request = Request(firstname: string, lastname: string, email: string)

  predicate ValidRequest(r: Request) {
    !Blank(r.firstname) && !Blank(r.lastname) && !Blank(r.email) && '@' in r.email
  }

  function SignUpEvent(now: Time, at: Time, project: string, req: Request, ip: string, user: Id, row: Id): Event {
    Event(now, at, SignUp(project, req.email, Profile(req.firstname, req.lastname, Some(ip)), user, row))
  }

  predicate HasLogin(db: Db, u: Id, project: string, email: string) {
    u in db.users && db.users[u].project == project && db.users[u].email == email
  }

  /** Which state each answer stands for. */
  lemma AnswerMeans(db: Db, project: string, email: string)
    requires Schema(db)
    ensures var status := Answer(StatusOf(db, project, email));
            && (status == 205 <==> exists u :: HasLogin(db, u, project, email) && db.users[u].hasAccess)
            && (status == 409 <==> exists u, r ::
                  && HasLogin(db, u, project, email) && !db.users[u].hasAccess
                  && r in db.rows && db.rows[r].userId == u)
  {
    var found := FindUser(db, project, email);
    if u :| HasLogin(db, u, project, email) {
      FindIs(db, project, email, u);
    }
    forall u | HasLogin(db, u, project, email) ensures found == Some(u) {
      FindIs(db, project, email, u);
    }
    if found.Some? { assert HasLogin(db, found.value, project, email); }
  }

  /** What a sign-up answered 201 writes, column by column. */
  lemma SignUpWrites(cfg: Settings, db: Db, e: Event)
    requires Schema(db) && e.step.SignUp? && Enabled(db, e)
    requires Answer(StatusOf(db, e.step.project, e.step.email)) == 201
    ensures var after, s := Apply(cfg, db, e), e.step;
            && s.rowId in after.rows
            && after.rows == db.rows[s.rowId := Row(s.project, after.rows[s.rowId].userId, e.at, 0)]
            && after.stamps == db.stamps
            && if exists u :: HasLogin(db, u, s.project, s.email)
               then HasLogin(db, after.rows[s.rowId].userId, s.project, s.email) && after.users == db.users
               else
                 && after.rows[s.rowId].userId == s.userId
                 && after.users == db.users[s.userId := User(s.project, s.email, s.profile, e.at, false,
                                                             None, None, None, None, None)]
  {
    var s := e.step;
    var found := FindUser(db, s.project, s.email);
    if u :| HasLogin(db, u, s.project, s.email) {
      FindIs(db, s.project, s.email, u);
    }
    if found.Some? { assert HasLogin(db, found.value, s.project, s.email); }
  }

  /** Sign-up. A 201 is the whole step, anything else leaves the tables alone; a 205 says that
      the login has access, a 409 that it waits, whatever fails elsewhere. */
  method HandleAdd(store: Conn, project: Option<string>, body: Option<Request>, ip: string,
                   now: Time, at: Time, user: Id, row: Id, faults: set<EndpointCall>, ghost cfg: Settings)
    returns (status: nat)
    requires Schema(store.db) && user !in store.db.users && row !in store.db.rows
    modifies store
    ensures status == 400 <==>
              || project.None? || body.None?
              || Blank(body.value.firstname) || Blank(body.value.lastname) || Blank(body.value.email)
              || '@' !in body.value.email
    ensures status == 201 ==>
              store.db == Apply(cfg, old(store.db), SignUpEvent(now, at, project.value, body.value, ip, user, row))
    ensures status == 201 ==>
              var db, req, slug := old(store.db), body.value, project.value;
              && row in store.db.rows
              && store.db.rows == db.rows[row := Row(slug, store.db.rows[row].userId, at, 0)]
              && store.db.stamps == db.stamps
              && if exists u :: HasLogin(db, u, slug, req.email)
                 then HasLogin(db, store.db.rows[row].userId, slug, req.email) && store.db.users == db.users
                 else
                   && store.db.rows[row].userId == user
                   && store.db.users == db.users[user := User(slug, req.email,
                                                              Profile(req.firstname, req.lastname, Some(ip)), at, false,
                                                              None, None, None, None, None)]
    ensures status != 201 ==> store.db == old(store.db)
    ensures status !in {400, 500} ==>
              var db, slug, email := old(store.db), project.value, body.value.email;
              && (status == 205 <==> exists u :: HasLogin(db, u, slug, email) && db.users[u].hasAccess)
              && (status == 409 <==> exists u, r ::
                    && HasLogin(db, u, slug, email) && !db.users[u].hasAccess
                    && r in db.rows && db.rows[r].userId == u)
    ensures status == 500 ==> faults * {BeginTx, LookUp, CreateUser, AddRow, CommitTx} != {}
    ensures status in {201, 205, 409, 400, 500}
  {
    if project == None || body == None {
      return 400;
    }
    var slug, req := project.value, body.value;
    if !ValidRequest(req) {
      return 400;
    }
    if BeginTx in faults {
      assert BeginTx in faults * {BeginTx, LookUp, CreateUser, AddRow, CommitTx};
      return 500;
    }
    ghost var db := store.db;
    var tx := new Tx.Begin(store);
    status := AddInTx(tx, slug, req, ip, at, user, row, faults, cfg, now);
    tx.Rollback();
    AnswerMeans(db, slug, req.email);
    if status == 201 { SignUpWrites(cfg, db, SignUpEvent(now, at, slug, req, ip, user, row)); }
  }

  method AddInTx(tx: Tx, slug: string, req: Request, ip: string, at: Time, user: Id, row: Id,
                 faults: set<EndpointCall>, ghost cfg: Settings, ghost now: Time) returns (status: nat)
    requires tx.open && tx.work != tx.store && tx.work.db == tx.store.db
    requires Schema(tx.store.db) && user !in tx.store.db.users && row !in tx.store.db.rows
    modifies tx, tx.store, tx.work
    ensures status == 201 ==>
              tx.store.db == Apply(cfg, old(tx.store.db), SignUpEvent(now, at, slug, req, ip, user, row))
    ensures status != 201 ==> tx.store.db == old(tx.store.db)
    ensures status != 500 ==> status == Answer(StatusOf(old(tx.store.db), slug, req.email))
    ensures status == 500 ==> faults * {BeginTx, LookUp, CreateUser, AddRow, CommitTx} != {}
    ensures status in {201, 205, 409, 500}
  {
    ghost var failing := faults * {BeginTx, LookUp, CreateUser, AddRow, CommitTx};
    ghost var before := tx.store.db;
    var id := user;
    var found := GetByEmailTx(tx.work, slug, req.email, LookUp in faults);
    if found.Err? {
      if found.error != UserNotFound {
        assert LookUp in failing;
        return 500;
      }
      var entity := NewUser(slug, req.email, Profile(req.firstname, req.lastname, Some(ip)), at);
      var created := CreateTx(tx.work, user, entity, CreateUser in faults);
      if created.Err? {
        assert CreateUser in failing;
        return 500;
      }
    } else {
      id := found.value;
      if tx.work.db.users[id].hasAccess {
        return 205;
      }
    }
    assert found.Err? ==> !HasRow(tx.work.db, id) by {
      forall r | r in before.rows ensures before.rows[r].userId in before.users {
        assert OwnerAgrees(before, before.rows[r]);
      }
    }
    var entry := Add(tx.work, row, slug, id, at, AddRow in faults);
    if entry.Err? {
      if entry.error == AlreadyOnWaitingList {
        return 409;
      }
      assert AddRow in failing;
      return 500;
    }
    var ok := tx.Commit(CommitTx in faults);
    if !ok {
      assert CommitTx in failing;
      return 500;
    }
    return 201;
  }

  /** Grant by an admin. The tables change only by the whole step, exactly when the user
      exists and no call up to the commit fails; a later failure still answers 500. */
  method HandleGrant(store: Conn, rawId: Id, now: Time, at: Time, faults: set<EndpointCall>, ghost cfg: Settings)
    returns (status: nat)
    modifies store
    ensures var id := Trim(rawId);
            var unfailing := faults !! {BeginTx, DeleteRowCall, GrantCall, CommitTx};
            var done := id != [] && id in old(store.db).users && unfailing;
            && store.db == (if done then Apply(cfg, old(store.db), Event(now, at, Grant(id))) else old(store.db))
            && (status == 200 <==> done && Fetch !in faults)
            && (status == 404 ==> id !in old(store.db).users)
            && (faults == {} ==> status == if id == [] then 400 else if id in old(store.db).users then 200 else 404)
            && (done ==>
                  var db := old(store.db);
                  && store.db.users == db.users[id := db.users[id].(
                       hasAccess := true, grantedAt := Some(at), grantedBy := Some("admin"),
                       revokedAt := None, revokedBy := None, revokeReason := None)]
                  && store.db.rows == (map r | r in db.rows && db.rows[r].userId != id :: db.rows[r])
                  && store.db.stamps == db.stamps)
  {
    var id := Trim(rawId);
    if id == [] {
      return 400;
    }
    if BeginTx in faults {
      return 500;
    }
    var tx := new Tx.Begin(store);
    status := GrantInTx(tx, id, at, faults);
    tx.Rollback();
    if status != 200 {
      return;
    }
    var user := GetByID(store, id, Fetch in faults);
    if user.Err? {
      return 500;
    }
  }

  method GrantInTx(tx: Tx, id: Id, at: Time, faults: set<EndpointCall>) returns (status: nat)
    requires tx.open && tx.work != tx.store && tx.work.db == tx.store.db
    modifies tx, tx.store, tx.work
    ensures status == if DeleteRowCall in faults || GrantCall in faults then 500
                      else if id !in old(tx.store.db).users then 404
                      else if CommitTx in faults then 500 else 200
    ensures tx.store.db == if status == 200 then GrantDb(old(tx.store.db), id, at) else old(tx.store.db)
  {
    var deleted := DeleteByUserIDTx(tx.work, id, DeleteRowCall in faults);
    if deleted.Err? {
      return 500;
    }
    var granted := GrantAccessTx(tx.work, [id], "admin", at, GrantCall in faults);
    assert IdSet([id]) == {id} by { assert [id][0] == id; }
    if granted.Err? {
      if granted.error == UserNotFound {
        return 404;
      }
      return 500;
    }
    var ok := tx.Commit(CommitTx in faults);
    if !ok {
      return 500;
    }
    return 200;
  }

  const MAX_REASON := 500

  predicate FitsInCharacters(reason: string) {
    |Trim(reason)| <= MAX_REASON
  }

  predicate FitsInBytes(reason: string) {
    ByteLength(Trim(reason)) <= MAX_REASON
  }

  /** The handler's test and the documented limit agree on a reason exactly when it is not
      within the limit by characters and beyond it by bytes; on ASCII they always agree. */
  lemma ReasonLimitExactly(reason: string)
    ensures FitsInBytes(reason) ==> FitsInCharacters(reason)
    ensures (FitsInBytes(reason) <==> FitsInCharacters(reason))
       <==> !(|Trim(reason)| <= MAX_REASON < ByteLength(Trim(reason)))
    ensures Ascii(Trim(reason)) ==> (FitsInBytes(reason) <==> FitsInCharacters(reason))
  {
    ByteLengthExactly(Trim(reason));
  }

  const ACCENT := '\U{E9}'

  function Accents(n: nat): (s: string)
    ensures |s| == n && forall i :: 0 <= i < n ==> s[i] == ACCENT
  {
    seq(n, _ => ACCENT)
  }

  lemma {:induction false} AccentsAreTwoBytes(n: nat)
    ensures ByteLength(Accents(n)) == 2 * n && Trim(Accents(n)) == Accents(n)
  {
    if n > 0 {
      AccentsAreTwoBytes(n - 1);
      assert Accents(n)[1..] == Accents(n - 1);
    }
  }

  /** Half the limit of accented letters and one more fit the documented limit and are
      refused. */
  lemma AccentedReasonRefused(n: nat)
    requires MAX_REASON / 2 < n <= MAX_REASON
    ensures FitsInCharacters(Accents(n)) && !FitsInBytes(Accents(n)) && !Blank(Accents(n))
  {
    AccentsAreTwoBytes(n);
  }

  /** Revoke by an admin: one statement, outside any transaction, with the trimmed reason.
      It is stored unless the statement itself fails, even where the answer is 500 because
      the affected rows could not be counted or the user not be fetched. */
  method HandleRevoke(store: Conn, rawId: Id, body: Option<string>, admin: string, now: Time, at: Time,
                      faults: set<EndpointCall>, ghost cfg: Settings) returns (status: nat)
    modifies store
    ensures var id := Trim(rawId);
            var valid := id != [] && body.Some? && !Blank(body.value) && ByteLength(Trim(body.value)) <= 500;
            var done := valid && id in old(store.db).users && RevokeCall !in faults;
            && (status == 400 <==> !valid)
            && (done ==> store.db == Apply(cfg, old(store.db), Event(now, at, Revoke(id, Trim(body.value), admin))))
            && (done ==>
                  var db := old(store.db);
                  && store.db.users == db.users[id := db.users[id].(
                       hasAccess := false, revokedAt := Some(at), revokedBy := Some(admin),
                       revokeReason := Some(Trim(body.value)))]
                  && store.db.rows == db.rows && store.db.stamps == db.stamps)
            && (!done ==> store.db == old(store.db))
            && (status == 200 <==> done && CountAffected !in faults && Fetch !in faults)
            && (status == 404 <==>
                  valid && id !in old(store.db).users && RevokeCall !in faults && CountAffected !in faults)
            && (status in {200, 400, 404, 500})
  {
    var id := Trim(rawId);
    if id == [] || body == None {
      return 400;
    }
    var reason := Trim(body.value);
    TrimTwice(body.value);
    if reason == [] || ByteLength(reason) > MAX_REASON {
      return 400;
    }
    var revoked := RevokeAccess(store, id, reason, admin, at, RevokeCall in faults, CountAffected in faults);
    if revoked.Err? {
      return if revoked.error == UserNotFound then 404 else 500;
    }
    var user := GetByID(store, id, Fetch in faults);
    if user.Err? {
      return 500;
    }
    return 200;
  }

  /** Removal of one waiting row by an admin; stored unless the statement itself fails. */
  method HandleDeleteWaitlist(store: Conn, rawId: Id, now: Time, at: Time, faults: set<EndpointCall>,
                              ghost cfg: Settings)
    returns (status: nat)
    modifies store
    ensures var id := Trim(rawId);
            var done := id != [] && id in old(store.db).rows && DeleteRowCall !in faults;
            && store.db == (if done then Apply(cfg, old(store.db), Event(now, at, DeleteRow(id))) else old(store.db))
            && store.db.users == old(store.db).users && store.db.stamps == old(store.db).stamps
            && store.db.rows == (if done then old(store.db).rows - {id} else old(store.db).rows)
            && (status == 204 <==> done && CountAffected !in faults)
            && (status == 404 <==>
                  id != [] && id !in old(store.db).rows && DeleteRowCall !in faults && CountAffected !in faults)
            && (status == 400 <==> id == [])
            && (status in {204, 400, 404, 500})
  {
    var id := Trim(rawId);
    if id == [] {
      return 400;
    }
    var deleted := DeleteByID(store, id, DeleteRowCall in faults, CountAffected in faults);
    if deleted.Err? {
      return if deleted.error == EntryNotFound then 404 else 500;
    }
    return 204;
  }
}
