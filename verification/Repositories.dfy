/** The SQLite repositories. Every call takes whether the database fails it. */
module Repositories {
  import opened Tables
  import opened Selection
  import opened Text
  import opened Lifecycle
  import opened AccessMachine
  import opened Dashboard
  import opened Digest
  import opened Database

  datatype Error =
    | DatabaseFailed
    | DuplicateEmail
    | UserNotFound
    | AlreadyOnWaitingList
    | WaitingListForeignKey
    | InvalidGrantSource
    | RevokeReasonRequired
    | EntryNotFound

  datatype Result<+T> = Ok(value: T) | Err(error: Error)

  function IdSet(ids: seq<Id>): set<Id> {
    set i | 0 <= i < |ids| :: ids[i]
  }

  // ---------- users ----------

  method GetByEmailTx(c: Conn, project: string, email: string, fails: bool) returns (r: Result<Id>)
    requires OneLoginEach(c.db)
    ensures fails ==> r == Err(DatabaseFailed)
    ensures !fails ==>
              r == match FindUser(c.db, project, email) { case None => Err(UserNotFound) case Some(u) => Ok(u) }
  {
    if fails {
      return Err(DatabaseFailed);
    }
    var hits := set u | u in c.db.users && c.db.users[u].project == project && c.db.users[u].email == email;
    if hits == {} {
      assert forall u :: u in c.db.users && c.db.users[u].project == project && c.db.users[u].email == email ==>
                           u in hits;
      return Err(UserNotFound);
    }
    var u :| u in hits;
    FindIs(c.db, project, email, u);
    return Ok(u);
  }

  /** Inserts a user under a fresh identifier, unless the login is taken. */
  method CreateTx(c: Conn, id: Id, user: User, fails: bool) returns (r: Result<()>)
    requires id !in c.db.users
    modifies c
    ensures r == if fails then Err(DatabaseFailed)
                 else if exists u :: u in old(c.db).users && SameLogin(old(c.db).users[u], user)
                 then Err(DuplicateEmail)
                 else Ok(())
    ensures c.db == if r.Ok? then InsertUser(old(c.db), id, user) else old(c.db)
    ensures r.Ok? ==> c.db == old(c.db).(users := old(c.db).users[id := user])
  {
    if fails {
      return Err(DatabaseFailed);
    }
    var taken := set u | u in c.db.users && SameLogin(c.db.users[u], user);
    if taken != {} {
      var u :| u in taken;
      return Err(DuplicateEmail);
    }
    assert forall u :: u in c.db.users && SameLogin(c.db.users[u], user) ==> u in taken;
    c.db := InsertUser(c.db, id, user);
    return Ok(());
  }

  /** Grants access to all listed users that exist; none existing is an error, an empty list
      is not. */
  method GrantAccessTx(c: Conn, ids: seq<Id>, source: string, at: Time, fails: bool) returns (r: Result<()>)
    modifies c
    ensures r == if source !in {"scheduler", "admin"} then Err(InvalidGrantSource)
                 else if ids == [] then Ok(())
                 else if fails then Err(DatabaseFailed)
                 else if IdSet(ids) !! old(c.db).users.Keys then Err(UserNotFound)
                 else Ok(())
    ensures r.Ok? && ids != [] ==> c.db == GrantUsers(old(c.db), IdSet(ids), source, at)
    ensures r.Ok? ==>
              var db := old(c.db);
              && c.db.rows == db.rows && c.db.stamps == db.stamps && c.db.users.Keys == db.users.Keys
              && forall u :: u in db.users ==>
                   c.db.users[u] == if u in ids
                                    then db.users[u].(hasAccess := true, grantedAt := Some(at),
                                           grantedBy := Some(source), revokedAt := None, revokedBy := None,
                                           revokeReason := None)
                                    else db.users[u]
    ensures !r.Ok? || ids == [] ==> c.db == old(c.db)
  {
    if source !in SOURCES {
      return Err(InvalidGrantSource);
    }
    if |ids| == 0 {
      return Ok(());
    }
    if fails {
      return Err(DatabaseFailed);
    }
    var affected := IdSet(ids) * c.db.users.Keys;
    if |affected| == 0 {
      assert forall u :: u in IdSet(ids) && u in c.db.users ==> u in affected;
      return Err(UserNotFound);
    }
    c.db := GrantUsers(c.db, IdSet(ids), source, at);
    assert exists u :: u in affected;
    return Ok(());
  }

  /** `uncounted` says that the statement took effect but the number of rows it affected
      could not be read: the revocation is stored although the call fails. */
  method RevokeAccess(c: Conn, id: Id, reason: string, admin: string, at: Time, fails: bool, uncounted: bool)
    returns (r: Result<()>)
    modifies c
    ensures r == if Blank(reason) then Err(RevokeReasonRequired)
                 else if fails || uncounted then Err(DatabaseFailed)
                 else if id !in old(c.db).users then Err(UserNotFound)
                 else Ok(())
    ensures c.db == if Blank(reason) || fails then old(c.db) else RevokeUser(old(c.db), id, reason, admin, at)
    ensures !Blank(reason) && !fails ==>
              var db := old(c.db);
              c.db == if id in db.users
                      then db.(users := db.users[id := db.users[id].(hasAccess := false, revokedAt := Some(at),
                                 revokedBy := Some(admin), revokeReason := Some(reason))])
                      else db
  {
    if Blank(reason) {
      return Err(RevokeReasonRequired);
    }
    if fails {
      return Err(DatabaseFailed);
    }
    var affected := id in c.db.users;
    c.db := RevokeUser(c.db, id, reason, admin, at);
    if uncounted {
      return Err(DatabaseFailed);
    }
    if !affected {
      return Err(UserNotFound);
    }
    return Ok(());
  }

  method GetByID(c: Conn, id: Id, fails: bool) returns (r: Result<User>)
    ensures r == if fails then Err(DatabaseFailed)
                 else if id in c.db.users then Ok(c.db.users[id]) else Err(UserNotFound)
  {
    if fails {
      return Err(DatabaseFailed);
    }
    if id !in c.db.users {
      return Err(UserNotFound);
    }
    return Ok(c.db.users[id]);
  }

  /** The dashboard counters, waiting and with access. Their sum counts users once, except
      those who are both. */
  method CountByAccess(c: Conn, slug: string, fails: bool) returns (r: Result<(nat, nat)>)
    requires Schema(c.db)
    ensures fails <==> r == Err(DatabaseFailed)
    ensures !fails ==>
              && r.Ok?
              && r.value.0 == |set q | q in c.db.rows && (slug == "" || c.db.rows[q].project == slug)|
              && r.value.1 == |set u | u in c.db.users && c.db.users[u].hasAccess
                                       && (slug == "" || c.db.users[u].project == slug)|
              && r.value.0 + r.value.1 == |Engaged(c.db, slug)| + |StaleInScope(c.db, slug)|
  {
    if fails {
      return Err(DatabaseFailed);
    }
    TotalCountsUsersOnce(c.db, slug);
    assert WaitingRows(c.db, slug) == set q | q in c.db.rows && (slug == "" || c.db.rows[q].project == slug);
    assert WithAccess(c.db, slug)
        == set u | u in c.db.users && c.db.users[u].hasAccess && (slug == "" || c.db.users[u].project == slug);
    return Ok((|WaitingRows(c.db, slug)|, |WithAccess(c.db, slug)|));
  }

  // ---------- waiting list ----------

  /** Inserts a row under a fresh identifier; one row per user, and only for users that exist. */
  method Add(c: Conn, id: Id, project: string, user: Id, at: Time, fails: bool) returns (r: Result<()>)
    requires id !in c.db.rows
    modifies c
    ensures r == if fails then Err(DatabaseFailed)
                 else if HasRow(old(c.db), user) then Err(AlreadyOnWaitingList)
                 else if user !in old(c.db).users then Err(WaitingListForeignKey)
                 else Ok(())
    ensures c.db == if r.Ok? then InsertRow(old(c.db), id, Row(project, user, at, 0)) else old(c.db)
    ensures r.Ok? ==> c.db == old(c.db).(rows := old(c.db).rows[id := Row(project, user, at, 0)])
  {
    if fails {
      return Err(DatabaseFailed);
    }
    var taken := set q | q in c.db.rows && c.db.rows[q].userId == user;
    if taken != {} {
      var q :| q in taken;
      return Err(AlreadyOnWaitingList);
    }
    assert forall q :: q in c.db.rows && c.db.rows[q].userId == user ==> q in taken;
    if user !in c.db.users {
      return Err(WaitingListForeignKey);
    }
    c.db := InsertRow(c.db, id, Row(project, user, at, 0));
    return Ok(());
  }

  /** Some member of the set with the least key. */
  method Earliest<T(==)>(s: set<T>, key: T -> Time) returns (first: T)
    requires s != {}
    ensures first in s && forall x :: x in s ==> key(first) <= key(x)
  {
    first :| first in s;
    var rest := s - {first};
    while rest != {}
      invariant rest <= s && first in s
      invariant forall x :: x in s && x !in rest ==> key(first) <= key(x)
      decreases |rest|
    {
      var x :| x in rest;
      if key(x) < key(first) {
        first := x;
      }
      rest := rest - {x};
    }
  }

  ghost predicate Ascending<T(!new)>(out: seq<T>, key: T -> Time) {
    forall i, j :: 0 <= i < j < |out| ==> key(out[i]) <= key(out[j])
  }

  /** ORDER BY a key: every member once, ties as they come. */
  method OrderBy<T(==,!new)>(s: set<T>, key: T -> Time) returns (out: seq<T>)
    ensures multiset(out) == multiset(s) && Ascending(out, key)
  {
    out := [];
    var rest := s;
    while rest != {}
      invariant rest <= s && multiset(out) + multiset(rest) == multiset(s)
      invariant Ascending(out, key)
      invariant forall i, x :: 0 <= i < |out| && x in rest ==> key(out[i]) <= key(x)
      decreases |rest|
    {
      var first := Earliest(rest, key);
      out := out + [first];
      rest := rest - {first};
    }
  }

  /** In a sequence that lists a set, every member stands once. */
  lemma ListsSet<T>(out: seq<T>, s: set<T>)
    requires multiset(out) == multiset(s)
    ensures forall x :: x in s <==> x in out
    ensures forall i, j :: 0 <= i < j < |out| ==> out[i] != out[j]
  {
    forall x ensures x in s <==> x in out {
      assert x in multiset(s) <==> x in multiset(out);
    }
    forall i, j | 0 <= i < j < |out| ensures out[i] != out[j] {
      assert out == out[..j] + out[j..];
      assert out[i] in multiset(out[..j]) && out[j] in multiset(out[j..]);
      assert multiset(out) == multiset(out[..j]) + multiset(out[j..]);
      assert multiset(s)[out[i]] <= 1;
    }
  }

  /** ORDER BY weighted_created_at. */
  method OrderRows(db: Db, project: string) returns (order: seq<Id>)
    ensures Listing(db, project, order)
  {
    var rows := set r | r in db.rows && db.rows[r].project == project;
    var key := (r: Id) => if r in db.rows then Weighted(db.rows[r]) else 0;
    order := OrderBy(rows, key);
    ListsSet(order, rows);
    forall i | 0 <= i < |order| ensures order[i] in db.rows && db.rows[order[i]].project == project {
      assert order[i] in rows;
    }
    forall i, j | 0 <= i < j < |order| ensures Weighted(db.rows[order[i]]) <= Weighted(db.rows[order[j]]) {
      assert key(order[i]) <= key(order[j]);
    }
  }

  const NO_LIMIT: nat := 2147483647

  function Drop<T>(s: seq<T>, n: nat): seq<T> {
    if n <= |s| then s[n..] else []
  }

  /** The rows listed from one place on, at most so many, with their weighted times. */
  ghost predicate PageOf(db: Db, listed: seq<Id>, from: nat, most: nat, page: seq<Entry>)
    requires forall i :: 0 <= i < |listed| ==> listed[i] in db.rows
  {
    && |page| == (if |listed| <= from then 0 else if |listed| - from < most then |listed| - from else most)
    && forall i :: 0 <= i < |page| ==>
         var row := db.rows[listed[from + i]];
         page[i] == Entry(listed[from + i], row.userId, row.createdAt - row.weight * 3_600_000_000_000)
  }

  lemma PageExactly(db: Db, listed: seq<Id>, from: nat, most: nat)
    requires forall i :: 0 <= i < |listed| ==> listed[i] in db.rows
    ensures PageOf(db, listed, from, most, Take(Drop(Entries(db, listed), from), most))
  {
    var page := Take(Drop(Entries(db, listed), from), most);
    forall i | 0 <= i < |page| ensures page[i] == EntryOf(db, listed[from + i]) {}
  }

  /** One page of the listing; `listed` is the order the database gives the rows. */
  method GetWithOffsetLimit(c: Conn, project: string, listed: seq<Id>, offset: Option<nat>, limit: Option<nat>,
                            fails: bool)
    returns (r: Result<seq<Entry>>)
    requires Listing(c.db, project, listed)
    ensures r == if fails then Err(DatabaseFailed)
                 else Ok(Take(Drop(Entries(c.db, listed), if offset.Some? then offset.value else 0),
                              if limit.Some? then limit.value else NO_LIMIT))
    ensures !fails ==> PageOf(c.db, listed, if offset.Some? then offset.value else 0,
                              if limit.Some? then limit.value else 2147483647, r.value)
  {
    if fails {
      return Err(DatabaseFailed);
    }
    var effectiveLimit := NO_LIMIT;
    var effectiveOffset: nat := 0;
    if limit.Some? {
      effectiveLimit := limit.value;
    }
    if offset.Some? {
      effectiveOffset := offset.value;
    }
    var entries := ScanRows(c, listed, effectiveOffset, effectiveLimit);
    PageExactly(c.db, listed, effectiveOffset, effectiveLimit);
    return Ok(entries);
  }

  method ScanRows(c: Conn, listed: seq<Id>, offset: nat, limit: nat) returns (entries: seq<Entry>)
    requires forall i :: 0 <= i < |listed| ==> listed[i] in c.db.rows
    ensures entries == Take(Drop(Entries(c.db, listed), offset), limit)
  {
    ghost var all := Entries(c.db, listed);
    entries := [];
    if offset >= |listed| {
      return;
    }
    var i := offset;
    while i < |listed| && |entries| < limit
      invariant offset <= i <= |listed| && |entries| == i - offset <= limit
      invariant entries == all[offset..i]
    {
      entries := entries + [EntryOf(c.db, listed[i])];
      i := i + 1;
    }
    assert all[offset..][..|entries|] == all[offset..i];
  }

  function CreatedAt(rows: map<Id, Row>, r: Id): Time {
    if r in rows then rows[r].createdAt else 0
  }

  ghost predicate OldestFirst(rows: map<Id, Row>, ids: seq<Id>) {
    forall i, j :: 0 <= i < j < |ids| ==> CreatedAt(rows, ids[i]) <= CreatedAt(rows, ids[j])
  }

  /** Rows of the project recorded after `since`, oldest first. */
  method GetEnlistedSince(c: Conn, project: string, since: Time, fails: bool) returns (r: Result<seq<Id>>)
    ensures fails <==> r == Err(DatabaseFailed)
    ensures !fails ==>
              && r.Ok? && multiset(r.value) == multiset(EnlistedSince(c.db.rows, project, since))
              && (forall q :: q in r.value <==>
                    q in c.db.rows && c.db.rows[q].project == project && c.db.rows[q].createdAt > since)
              && (forall i, j :: 0 <= i < j < |r.value| ==> r.value[i] != r.value[j])
              && OldestFirst(c.db.rows, r.value)
  {
    if fails {
      return Err(DatabaseFailed);
    }
    var rows := c.db.rows;
    var key := (r: Id) => CreatedAt(rows, r);
    var ids := OrderBy(EnlistedSince(rows, project, since), key);
    forall i, j | 0 <= i < j < |ids| ensures CreatedAt(rows, ids[i]) <= CreatedAt(rows, ids[j]) {
      assert key(ids[i]) <= key(ids[j]);
    }
    ListsSet(ids, EnlistedSince(rows, project, since));
    return Ok(ids);
  }

  /** Users of the project whose grant was recorded after `since`, as grant events, oldest
      first. */
  method GetGrantedSince(c: Conn, project: string, since: Time, fails: bool) returns (r: Result<seq<GrantEvent>>)
    ensures fails <==> r == Err(DatabaseFailed)
    ensures !fails ==>
              && r.Ok? && multiset(r.value) == multiset(GrantedSince(c.db.users, project, since))
              && (forall g :: g in r.value <==>
                    && g.user in c.db.users && c.db.users[g.user].project == project
                    && c.db.users[g.user].grantedAt == Some(g.at) && g.at > since)
              && (forall i, j :: 0 <= i < j < |r.value| ==> r.value[i] != r.value[j])
              && Ascending(r.value, (g: GrantEvent) => g.at)
  {
    if fails {
      return Err(DatabaseFailed);
    }
    var grants := OrderBy(GrantedSince(c.db.users, project, since), (g: GrantEvent) => g.at);
    ListsSet(grants, GrantedSince(c.db.users, project, since));
    forall g ensures g in GrantedSince(c.db.users, project, since) <==>
                       && g.user in c.db.users && c.db.users[g.user].project == project
                       && c.db.users[g.user].grantedAt == Some(g.at) && g.at > since
    {
      ReportedGrant(c.db.users, project, since, g);
    }
    return Ok(grants);
  }

  method DeleteByIDsTx(c: Conn, ids: seq<Id>, fails: bool) returns (r: Result<()>)
    modifies c
    ensures r == if ids != [] && fails then Err(DatabaseFailed) else Ok(())
    ensures c.db == if r.Ok? then DeleteRows(old(c.db), IdSet(ids)) else old(c.db)
    ensures r.Ok? ==>
              var db := old(c.db);
              c.db == db.(rows := map q | q in db.rows && q !in ids :: db.rows[q])
  {
    if |ids| == 0 {
      assert DeleteRows(c.db, {}).rows == c.db.rows;
      return Ok(());
    }
    if fails {
      return Err(DatabaseFailed);
    }
    c.db := DeleteRows(c.db, IdSet(ids));
    return Ok(());
  }

  /** As with a revocation, the row can be gone although the call fails. */
  method DeleteByID(c: Conn, id: Id, fails: bool, uncounted: bool) returns (r: Result<()>)
    modifies c
    ensures r == if fails || uncounted then Err(DatabaseFailed)
                 else if id in old(c.db).rows then Ok(()) else Err(EntryNotFound)
    ensures c.db == if fails then old(c.db) else DeleteRows(old(c.db), {id})
    ensures !fails ==> c.db == old(c.db).(rows := old(c.db).rows - {id})
    ensures id !in old(c.db).rows ==> c.db == old(c.db)
  {
    if fails {
      return Err(DatabaseFailed);
    }
    var affected := id in c.db.rows;
    c.db := DeleteRows(c.db, {id});
    assert !affected ==> c.db.rows == old(c.db).rows;
    if uncounted {
      return Err(DatabaseFailed);
    }
    if !affected {
      return Err(EntryNotFound);
    }
    return Ok(());
  }

  method DeleteByUserIDTx(c: Conn, user: Id, fails: bool) returns (r: Result<()>)
    modifies c
    ensures r == if fails then Err(DatabaseFailed) else Ok(())
    ensures c.db == if r.Ok? then DeleteRowsOf(old(c.db), user) else old(c.db)
    ensures r.Ok? ==>
              var db := old(c.db);
              c.db == db.(rows := map q | q in db.rows && db.rows[q].userId != user :: db.rows[q])
  {
    if fails {
      return Err(DatabaseFailed);
    }
    c.db := DeleteRowsOf(c.db, user);
    return Ok(());
  }

  // ---------- scheduler state ----------

  method GetLastSuccess(c: Conn, key: Stamp, fails: bool) returns (r: Result<Option<Time>>)
    ensures r == if fails then Err(DatabaseFailed)
                 else Ok(if key in c.db.stamps then Some(c.db.stamps[key]) else None)
  {
    if fails {
      return Err(DatabaseFailed);
    }
    return Ok(if key in c.db.stamps then Some(c.db.stamps[key]) else None);
  }

  /** Upserts the stamp; the next read finds the time just recorded. */
  method UpdateLastSuccess(c: Conn, key: Stamp, at: Time, fails: bool) returns (r: Result<()>)
    modifies c
    ensures r == if fails then Err(DatabaseFailed) else Ok(())
    ensures c.db == if r.Ok? then UpsertStamp(old(c.db), key, at) else old(c.db)
    ensures r.Ok? ==> c.db == old(c.db).(stamps := old(c.db).stamps[key := at])
  {
    if fails {
      return Err(DatabaseFailed);
    }
    c.db := UpsertStamp(c.db, key, at);
    return Ok(());
  }
}
