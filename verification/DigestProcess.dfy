/** One run of the digest job, and the mail it sends. */
module DigestProcess {
  import opened Tables
  import opened Lifecycle
  import opened Clock
  import opened Digest
  import opened Database
  import opened Repositories

  datatype DigestCall = ReadStamp | ListRows | ListGrants | StampCall

  datatype EnlistedEntry = EnlistedEntry(profile: Profile, email: string, joinedAt: Time)

  datatype GrantedEntry = GrantedEntry(profile: Profile, email: string, grantedAt: Time, grantedBy: string)

  datatype DigestData = DigestData(periodStart: Time, periodEnd: Time, enlisted: seq<EnlistedEntry>,
                                   granted: seq<GrantedEntry>)

  function EnlistedOf(db: Db, r: Id): EnlistedEntry
    requires r in db.rows && db.rows[r].userId in db.users
  {
    EnlistedEntry(db.users[db.rows[r].userId].profile, db.users[db.rows[r].userId].email, db.rows[r].createdAt)
  }

  function GrantedOf(db: Db, g: GrantEvent): GrantedEntry
    requires g.user in db.users
  {
    var u := db.users[g.user];
    GrantedEntry(u.profile, u.email, g.at, if u.grantedBy.Some? then u.grantedBy.value else "")
  }

  /** Mails every recipient even after a failure, and reports the first error; no error
      exactly when the mail rendered and every send succeeded. `outcomes` says how each send
      ends. */
  method SendDigest(recipients: seq<string>, renders: bool, outcomes: seq<Option<string>>)
    returns (firstErr: Option<string>, attempted: seq<string>)
    requires |outcomes| == |recipients|
    ensures firstErr.None? <==> recipients == [] || (renders && forall i :: 0 <= i < |outcomes| ==> outcomes[i].None?)
    ensures renders ==> attempted == recipients
    ensures renders && firstErr.Some? ==>
              exists i :: 0 <= i < |outcomes| && outcomes[i] == firstErr && forall k :: 0 <= k < i ==> outcomes[k].None?
  {
    attempted := [];
    if |recipients| == 0 {
      return None, attempted;
    }
    if !renders {
      return Some("template"), attempted;
    }
    firstErr := None;
    for i := 0 to |recipients|
      invariant attempted == recipients[..i]
      invariant firstErr.None? <==> forall k :: 0 <= k < i ==> outcomes[k].None?
      invariant firstErr.Some? ==>
                  exists j :: 0 <= j < i && outcomes[j] == firstErr && forall k :: 0 <= k < j ==> outcomes[k].None?
    {
      attempted := attempted + [recipients[i]];
      if outcomes[i].Some? {
        if firstErr.None? {
          firstErr := outcomes[i];
        }
      }
    }
  }

  /** The job's own test says the same. */
  lemma ActiveExactly(db: Db, project: string, since: Time)
    ensures Active(db, project, since) <==> HadActivity(db, project, since)
  {
    if r :| r in db.rows && db.rows[r].project == project && db.rows[r].createdAt > since {
      assert r in EnlistedSince(db.rows, project, since);
    }
    if u :| u in db.users && db.users[u].project == project && db.users[u].grantedAt.Some?
            && db.users[u].grantedAt.value > since {
      ReportedGrant(db.users, project, since, GrantEvent(u, db.users[u].grantedAt.value));
    }
    if g :| g in GrantedSince(db.users, project, since) {
      ReportedGrant(db.users, project, since, g);
    }
  }

  ghost predicate Active(db: Db, project: string, since: Time) {
    EnlistedSince(db.rows, project, since) != {} || GrantedSince(db.users, project, since) != {}
  }

  /** Whether the project had sign-ups or grants since. */
  ghost predicate HadActivity(db: Db, project: string, since: Time) {
    || (exists r :: r in db.rows && db.rows[r].project == project && db.rows[r].createdAt > since)
    || (exists u :: u in db.users && db.users[u].project == project && db.users[u].grantedAt.Some?
                    && db.users[u].grantedAt.value > since)
  }

  /** The entries stand in the order of the listings. */
  lemma StaysOrdered(db: Db, rows: seq<Id>, enlisted: seq<EnlistedEntry>, grants: seq<GrantEvent>,
                     granted: seq<GrantedEntry>)
    requires EnlistedAs(db, rows, enlisted) && OldestFirst(db.rows, rows)
    requires GrantedAs(db, grants, granted) && Ascending(grants, (g: GrantEvent) => g.at)
    ensures forall i, j :: 0 <= i < j < |enlisted| ==> enlisted[i].joinedAt <= enlisted[j].joinedAt
    ensures forall i, j :: 0 <= i < j < |granted| ==> granted[i].grantedAt <= granted[j].grantedAt
  {
    forall i, j | 0 <= i < j < |enlisted| ensures enlisted[i].joinedAt <= enlisted[j].joinedAt {
      assert CreatedAt(db.rows, rows[i]) <= CreatedAt(db.rows, rows[j]);
    }
    forall i, j | 0 <= i < j < |granted| ensures granted[i].grantedAt <= granted[j].grantedAt {
      assert granted[i].grantedAt == grants[i].at <= grants[j].at == granted[j].grantedAt;
    }
  }

  /** Entries made of the two listings are the whole mail. */
  lemma EntriesCover(db: Db, project: string, since: Time, rows: seq<Id>, grants: seq<GrantEvent>, data: DigestData)
    requires RowsSince(db, project, since, rows) && OldestFirst(db.rows, rows)
    requires GrantsSince(db, project, since, grants) && Ascending(grants, (g: GrantEvent) => g.at)
    requires EnlistedAs(db, rows, data.enlisted) && GrantedAs(db, grants, data.granted) && data.periodStart == since
    ensures Covers(db, project, since, data)
  {
    StaysOrdered(db, rows, data.enlisted, grants, data.granted);
  }

  /** The two queries and the entries made of them. */
  method CompileDigest(c: Conn, project: string, since: Time, now: Time, noRows: bool, noGrants: bool)
    returns (mail: Option<DigestData>)
    requires Schema(c.db)
    ensures mail.Some? <==> !noRows && !noGrants && HadActivity(c.db, project, since)
    ensures mail.Some? ==> Covers(c.db, project, since, mail.value) && mail.value.periodEnd == now
  {
    var rows := GetEnlistedSince(c, project, since, noRows);
    if rows.Err? {
      return None;
    }
    var grants := GetGrantedSince(c, project, since, noGrants);
    if grants.Err? {
      return None;
    }
    FoundAnything(c.db, project, since, rows.value, grants.value);
    if |rows.value| == 0 && |grants.value| == 0 {
      return None;
    }
    var enlisted := ListEnlisted(c, project, since, rows.value);
    var granted := ListGranted(c, project, since, grants.value);
    var data := DigestData(since, now, enlisted, granted);
    EntriesCover(c.db, project, since, rows.value, grants.value, data);
    return Some(data);
  }

  /** A run stamps exactly when it found activity, every call succeeded and every recipient
      was served; the mail covers each row and each grant of the window once, oldest first.
      `res` is the storage resolution, at which the database compares a day ago. */
  method ProcessDigestProject(store: Conn, project: string, recipients: seq<string>, res: Time, now: Time, at: Time,
                              faults: set<DigestCall>, renders: bool, outcomes: seq<Option<string>>)
    returns (mail: Option<DigestData>, stamped: bool)
    requires Schema(store.db) && |outcomes| == |recipients| && res > 0
    modifies store
    ensures var db, key := old(store.db), Stamp(project, "digest_last_success");
            var since := if key in db.stamps then db.stamps[key] else Trunc(res, now - 86_400_000_000_000);
            && (mail.Some? <==>
                  && faults !! {ReadStamp, ListRows, ListGrants}
                  && (|| (exists r :: r in db.rows && db.rows[r].project == project && db.rows[r].createdAt > since)
                      || (exists u :: u in db.users && db.users[u].project == project && db.users[u].grantedAt.Some?
                                      && db.users[u].grantedAt.value > since)))
            && (mail.Some? ==> Covers(db, project, since, mail.value) && mail.value.periodEnd == now)
    ensures stamped <==>
              && mail.Some? && StampCall !in faults
              && (recipients == [] || (renders && forall i :: 0 <= i < |outcomes| ==> outcomes[i].None?))
    ensures store.db == if stamped
                        then old(store.db).(stamps := old(store.db).stamps[Stamp(project, "digest_last_success") := at])
                        else old(store.db)
  {
    mail, stamped := None, false;
    var last := GetLastSuccess(store, DigestKey(project), ReadStamp in faults);
    if last.Err? {
      return;
    }
    var since := if last.value.Some? then last.value.value else Trunc(res, now - DAY);
    mail := CompileDigest(store, project, since, now, ListRows in faults, ListGrants in faults);
    if mail.None? {
      return;
    }
    var err, attempted := SendDigest(recipients, renders, outcomes);
    if err.Some? {
      return;
    }
    var updated := UpdateLastSuccess(store, DigestKey(project), at, StampCall in faults);
    stamped := updated.Ok?;
  }

  /** What a stamped run leaves is the digest step of a run of the service. */
  lemma StampedIsStep(cfg: Settings, db: Db, e: Event)
    requires e.step.DigestSent?
    ensures Apply(cfg, db, e) == db.(stamps := db.stamps[Stamp(e.step.project, "digest_last_success") := e.at])
  {
  }

  /** The two listings are empty exactly when the project had no activity. */
  lemma FoundAnything(db: Db, project: string, since: Time, rows: seq<Id>, grants: seq<GrantEvent>)
    requires RowsSince(db, project, since, rows) && GrantsSince(db, project, since, grants)
    ensures |rows| > 0 <==> exists r :: r in db.rows && db.rows[r].project == project && db.rows[r].createdAt > since
    ensures |grants| > 0 <==>
              exists u :: u in db.users && db.users[u].project == project && db.users[u].grantedAt.Some?
                          && db.users[u].grantedAt.value > since
  {
    if |rows| > 0 { assert rows[0] in rows; }
    if |grants| > 0 { assert grants[0] in grants; }
    if u :| u in db.users && db.users[u].project == project && db.users[u].grantedAt.Some?
            && db.users[u].grantedAt.value > since {
      assert GrantEvent(u, db.users[u].grantedAt.value) in grants;
    }
  }

  /** One entry per row and per grant of the window, oldest first, each with its user's name
      and address. */
  ghost predicate Covers(db: Db, project: string, since: Time, data: DigestData) {
    && data.periodStart == since
    && (exists rows: seq<Id> :: RowsSince(db, project, since, rows) && EnlistedAs(db, rows, data.enlisted))
    && (forall i, j :: 0 <= i < j < |data.enlisted| ==> data.enlisted[i].joinedAt <= data.enlisted[j].joinedAt)
    && (exists grants: seq<GrantEvent> ::
          GrantsSince(db, project, since, grants) && GrantedAs(db, grants, data.granted))
    && (forall i, j :: 0 <= i < j < |data.granted| ==> data.granted[i].grantedAt <= data.granted[j].grantedAt)
  }

  /** The project's rows recorded after `since`, each once. */
  ghost predicate RowsSince(db: Db, project: string, since: Time, rows: seq<Id>) {
    && (forall r :: r in rows <==> r in db.rows && db.rows[r].project == project && db.rows[r].createdAt > since)
    && (forall i, j :: 0 <= i < j < |rows| ==> rows[i] != rows[j])
  }

  /** The grants of the project's users recorded after `since`, each once. */
  ghost predicate GrantsSince(db: Db, project: string, since: Time, grants: seq<GrantEvent>) {
    && (forall g :: g in grants <==>
          && g.user in db.users && db.users[g.user].project == project
          && db.users[g.user].grantedAt == Some(g.at) && g.at > since)
    && (forall i, j :: 0 <= i < j < |grants| ==> grants[i] != grants[j])
  }

  ghost predicate EnlistedAs(db: Db, rows: seq<Id>, out: seq<EnlistedEntry>) {
    && |out| == |rows|
    && forall i :: 0 <= i < |rows| ==>
         && rows[i] in db.rows && db.rows[rows[i]].userId in db.users
         && var u := db.users[db.rows[rows[i]].userId];
            out[i] == EnlistedEntry(u.profile, u.email, db.rows[rows[i]].createdAt)
  }

  ghost predicate GrantedAs(db: Db, grants: seq<GrantEvent>, out: seq<GrantedEntry>) {
    && |out| == |grants|
    && forall i :: 0 <= i < |grants| ==>
         && grants[i].user in db.users
         && var u := db.users[grants[i].user];
            && out[i].profile == u.profile && out[i].email == u.email && out[i].grantedAt == grants[i].at
            && out[i].grantedBy == (match u.grantedBy case Some(source) => source case None => "")
  }

  method ListEnlisted(c: Conn, project: string, since: Time, rows: seq<Id>) returns (out: seq<EnlistedEntry>)
    requires RowsOwned(c.db) && RowsSince(c.db, project, since, rows)
    ensures EnlistedAs(c.db, rows, out)
  {
    out := [];
    for i := 0 to |rows|
      invariant EnlistedAs(c.db, rows[..i], out)
    {
      assert rows[i] in rows;
      assert OwnerAgrees(c.db, c.db.rows[rows[i]]);
      out := out + [EnlistedOf(c.db, rows[i])];
    }
    assert rows[..|rows|] == rows;
  }

  method ListGranted(c: Conn, project: string, since: Time, grants: seq<GrantEvent>) returns (out: seq<GrantedEntry>)
    requires GrantsSince(c.db, project, since, grants)
    ensures GrantedAs(c.db, grants, out)
  {
    out := [];
    for i := 0 to |grants|
      invariant GrantedAs(c.db, grants[..i], out)
    {
      assert grants[i] in grants;
      out := out + [GrantedOf(c.db, grants[i])];
    }
    assert grants[..|grants|] == grants;
  }

  /** A run nobody interrupts is four steps of the job, ending in the tables the method
      leaves and a report of what it mailed. */
  lemma UninterruptedRun(cfg: Settings, j: Job, back: Time, before: Time, at: Time)
    requires j.phase.Resting? && before <= at
    requires Active(j.world.db, j.project, SinceOf(j.world.db, j.project, back))
    ensures var acts := [Begin(back), QueryEnlisted, QueryGranted, Finish(at)];
            && Feasible(cfg, j, before, acts)
            && Reached(cfg, j, before, acts).world.db == UpsertStamp(j.world.db, DigestKey(j.project), at)
            && Reached(cfg, j, before, acts).log
            == j.log + [Report(SinceOf(j.world.db, j.project, back), j.world.db.rows, j.world.db.users, at)]
  {
    var j1 := Advance(cfg, j, Begin(back));
    var j2 := Advance(cfg, j1, QueryEnlisted);
    var j3 := Advance(cfg, j2, QueryGranted);
    PrependAct(cfg, j3, before, Finish(at), []);
    PrependAct(cfg, j2, before, QueryGranted, [Finish(at)] + []);
    PrependAct(cfg, j1, before, QueryEnlisted, [QueryGranted] + ([Finish(at)] + []));
    PrependAct(cfg, j, before, Begin(back), [QueryEnlisted] + ([QueryGranted] + ([Finish(at)] + [])));
    assert [Begin(back), QueryEnlisted, QueryGranted, Finish(at)]
        == [Begin(back)] + ([QueryEnlisted] + ([QueryGranted] + ([Finish(at)] + [])));
  }

  /** A run that finds nothing rests after its queries: nothing is mailed, stamped or changed. */
  lemma IdleRun(cfg: Settings, j: Job, back: Time, before: Time)
    requires j.phase.Resting?
    requires !HadActivity(j.world.db, j.project, SinceOf(j.world.db, j.project, back))
    ensures var acts := [Begin(back), QueryEnlisted, QueryGranted];
            Feasible(cfg, j, before, acts) && Reached(cfg, j, before, acts) == j
  {
    ActiveExactly(j.world.db, j.project, SinceOf(j.world.db, j.project, back));
    var j1 := Advance(cfg, j, Begin(back));
    var j2 := Advance(cfg, j1, QueryEnlisted);
    assert Advance(cfg, j2, QueryGranted) == j;
    PrependAct(cfg, j2, before, QueryGranted, []);
    PrependAct(cfg, j1, before, QueryEnlisted, [QueryGranted] + []);
    PrependAct(cfg, j, before, Begin(back), [QueryEnlisted] + ([QueryGranted] + []));
    assert [Begin(back), QueryEnlisted, QueryGranted] == [Begin(back)] + ([QueryEnlisted] + ([QueryGranted] + []));
  }

  /** A run in which a query, the mail or the stamp fails leaves everything as it was. */
  lemma FailedRun(cfg: Settings, j: Job, back: Time, before: Time)
    requires j.phase.Resting?
    ensures Feasible(cfg, j, before, [Begin(back), GiveUp])
    ensures Reached(cfg, j, before, [Begin(back), GiveUp]) == j
    ensures Feasible(cfg, j, before, [Begin(back), QueryEnlisted, GiveUp])
    ensures Reached(cfg, j, before, [Begin(back), QueryEnlisted, GiveUp]) == j
    ensures Feasible(cfg, j, before, [Begin(back), QueryEnlisted, QueryGranted, GiveUp])
    ensures Reached(cfg, j, before, [Begin(back), QueryEnlisted, QueryGranted, GiveUp]) == j
  {
    var j1 := Advance(cfg, j, Begin(back));
    var j2 := Advance(cfg, j1, QueryEnlisted);
    var j3 := Advance(cfg, j2, QueryGranted);
    PrependAct(cfg, j1, before, GiveUp, []);
    PrependAct(cfg, j2, before, GiveUp, []);
    PrependAct(cfg, j3, before, GiveUp, []);
    var last := [GiveUp] + [];
    PrependAct(cfg, j2, before, QueryGranted, last);
    PrependAct(cfg, j1, before, QueryEnlisted, last);
    PrependAct(cfg, j1, before, QueryEnlisted, [QueryGranted] + last);
    PrependAct(cfg, j, before, Begin(back), last);
    PrependAct(cfg, j, before, Begin(back), [QueryEnlisted] + last);
    PrependAct(cfg, j, before, Begin(back), [QueryEnlisted] + ([QueryGranted] + last));
    assert [Begin(back), GiveUp] == [Begin(back)] + last;
    assert [Begin(back), QueryEnlisted, GiveUp] == [Begin(back)] + ([QueryEnlisted] + last);
    assert [Begin(back), QueryEnlisted, QueryGranted, GiveUp]
        == [Begin(back)] + ([QueryEnlisted] + ([QueryGranted] + last));
  }
}
