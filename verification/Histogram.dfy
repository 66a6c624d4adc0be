/** Sign-ups per day for the dashboard: rows grouped by day behind a rolling cutoff, then
    laid out over the last so many days. */
module Histogram {
  import opened Tables
  import opened Clock
  import opened Dashboard
  import opened SqliteTime

  /** A date as "2006-01-02" and the number of users created on it. */
  datatype DayCount = DayCount(day: string, count: nat)

  /** Days numbered from the epoch, in UTC. */
  function DayNumber(t: Time): int {
    t / DAY
  }

  function ClampDays(days: int): nat {
    if days < 1 then 1 else if days > 365 then 365 else days
  }

  /** Users in scope created on the given day. */
  function CreatedOn(users: map<Id, User>, slug: string, day: int): set<Id> {
    set u | u in users && InScope(slug, users[u].project) && DayNumber(users[u].createdAt) == day
  }

  /** WHERE created_at >= cutoff. */
  function CreatedSince(users: map<Id, User>, slug: string, cutoff: Time): set<Id> {
    set u | u in users && InScope(slug, users[u].project) && users[u].createdAt >= cutoff
  }

  /** Every user was created within the calendar, years 0000 to 9999. */
  ghost predicate Dated(users: map<Id, User>) {
    forall u :: u in users ==> InCalendar(DayNumber(users[u].createdAt))
  }

  /** strftime('%Y-%m-%d', created_at) of the rows behind the cutoff. */
  function DatesSince(users: map<Id, User>, slug: string, cutoff: Time): map<Id, string>
    requires Dated(users)
  {
    map u | u in CreatedSince(users, slug, cutoff) :: DayText(DayNumber(users[u].createdAt))
  }

  function OnDate(dates: map<Id, string>, day: string): set<Id> {
    set u | u in dates && dates[u] == day
  }

  /** The date part of a stored time, which strftime prints, is the text of its day. */
  lemma StoredDate(l: Layout, t: Time)
    requires Writable(t)
    ensures InCalendar(DayNumber(t)) && |TimeText(l, t)| >= 10 && TimeText(l, t)[..10] == DayText(DayNumber(t))
  {
    assert t / SECOND / 86400 == DayNumber(t);
    DayTextIsPrefix(l, t);
  }

  /** The rolling cutoff, days * 24h before the query, slices only a day older than the
      oldest one shown. */
  lemma CutoffSparesShownDays(users: map<Id, User>, slug: string, days: nat, query: Time, shown: Time, day: int)
    requires query <= shown && days >= 1 && day > DayNumber(shown) - days
    ensures (set u | u in CreatedSince(users, slug, Trunc(SECOND, query) - days * DAY)
                     && DayNumber(users[u].createdAt) == day)
         == CreatedOn(users, slug, day)
  {
  }

  /** What GROUP BY and COUNT(*) leave in the map. */
  ghost predicate Grouped(got: map<string, nat>, dates: map<Id, string>) {
    && (forall u :: u in dates ==> dates[u] in got)
    && forall d :: d in got ==> got[d] == |OnDate(dates, d)|
  }

  /** The query and the loop over its rows. */
  method GroupRows(dates: map<Id, string>) returns (got: map<string, nat>)
    ensures Grouped(got, dates)
  {
    got := map[];
    var rest := dates.Values;
    while rest != {}
      invariant forall u :: u in dates ==> dates[u] in got.Keys + rest
      invariant forall d :: d in got ==> got[d] == |OnDate(dates, d)|
      decreases |rest|
    {
      var day :| day in rest;
      got := got[day := |OnDate(dates, day)|];
      rest := rest - {day};
    }
  }

  function Lookup(got: map<string, nat>, day: string): nat {
    if day in got then got[day] else 0
  }

  lemma ShownDayIsExact(users: map<Id, User>, slug: string, days: nat, query: Time, shown: Time, day: int)
    requires query <= shown && days >= 1 && day > DayNumber(shown) - days
    requires Dated(users) && InCalendar(day)
    ensures OnDate(DatesSince(users, slug, Trunc(SECOND, query) - days * DAY), DayText(day))
         == CreatedOn(users, slug, day)
  {
    var since := CreatedSince(users, slug, Trunc(SECOND, query) - days * DAY);
    CutoffSparesShownDays(users, slug, days, query, shown, day);
    forall u | u in since
      ensures DayText(DayNumber(users[u].createdAt)) == DayText(day) <==> DayNumber(users[u].createdAt) == day
    {
      DayTextExactly(DayNumber(users[u].createdAt), day);
    }
  }

  // ---------- the layout ----------

  /** The date of a day as text, the date part of all its stored times; nothing outside the
      calendar. */
  function DateOf(day: int): string {
    if InCalendar(day) then DayText(day) else ""
  }

  /** How many users in scope were created on a day. */
  function CountOf(users: map<Id, User>, slug: string): int -> nat {
    day => |CreatedOn(users, slug, day)|
  }

  /** The users in scope created from midnight to midnight, UTC. */
  lemma CountExactly(users: map<Id, User>, slug: string, day: int)
    ensures CountedOn(users, slug, day, CountOf(users, slug)(day))
  {
    assert CreatedOn(users, slug, day)
        == set u | u in users && (slug == "" || users[u].project == slug)
                   && day * 86_400_000_000_000 <= users[u].createdAt < (day + 1) * 86_400_000_000_000;
  }

  /** Each entry has the number of users, of the project or of all, created from midnight to
      midnight, UTC, of its day. */
  ghost predicate CountedFrom(users: map<Id, User>, slug: string, first: int, out: seq<DayCount>) {
    forall i :: 0 <= i < |out| ==> CountedOn(users, slug, first + i, out[i].count)
  }

  ghost predicate CountedOn(users: map<Id, User>, slug: string, day: int, count: nat) {
    count == |set u | u in users && (slug == "" || users[u].project == slug)
                      && day * 86_400_000_000_000 <= users[u].createdAt < (day + 1) * 86_400_000_000_000|
  }

  /** Each entry has the date of its day. */
  ghost predicate DatedFrom(date: int -> string, first: int, out: seq<DayCount>) {
    forall i :: 0 <= i < |out| ==> out[i].day == date(first + i)
  }

  lemma SeriesDates(date: int -> string, count: int -> nat, first: int, out: seq<DayCount>)
    requires Series(date, count, first, out)
    ensures DatedFrom(date, first, out)
  {
  }

  lemma SeriesCounts(users: map<Id, User>, slug: string, first: int, out: seq<DayCount>)
    requires Series(DateOf, CountOf(users, slug), first, out)
    ensures CountedFrom(users, slug, first, out)
  {
    forall i | 0 <= i < |out| ensures CountedOn(users, slug, first + i, out[i].count) {
      CountExactly(users, slug, first + i);
    }
  }

  /** For the last so many days, the map holds the count of the day under its date. */
  ghost predicate HoldsCounts(got: map<string, nat>, date: int -> string, count: int -> nat, today: int, span: nat) {
    forall day :: today - span < day <= today ==> Lookup(got, date(day)) == count(day)
  }

  lemma GroupHoldsCount(got: map<string, nat>, users: map<Id, User>, slug: string, span: nat, query: Time, shown: Time,
                        day: int)
    requires query <= shown && Dated(users) && span >= 1 && day > DayNumber(shown) - span && InCalendar(day)
    requires Grouped(got, DatesSince(users, slug, Trunc(SECOND, query) - span * DAY))
    ensures Lookup(got, DateOf(day)) == CountOf(users, slug)(day)
  {
    ShownDayIsExact(users, slug, span, query, shown, day);
    if DayText(day) !in got {
      assert OnDate(DatesSince(users, slug, Trunc(SECOND, query) - span * DAY), DayText(day)) == {};
    }
  }

  lemma GroupsHoldCounts(got: map<string, nat>, users: map<Id, User>, slug: string, span: nat, query: Time, shown: Time)
    requires query <= shown && Dated(users) && span >= 1
    requires forall day :: DayNumber(shown) - span < day <= DayNumber(shown) ==> InCalendar(day)
    requires Grouped(got, DatesSince(users, slug, Trunc(SECOND, query) - span * DAY))
    ensures HoldsCounts(got, DateOf, CountOf(users, slug), DayNumber(shown), span)
  {
    forall day | DayNumber(shown) - span < day <= DayNumber(shown)
      ensures Lookup(got, DateOf(day)) == CountOf(users, slug)(day)
    {
      GroupHoldsCount(got, users, slug, span, query, shown, day);
    }
  }

  /** The query behind the rolling cutoff, whose counts still hold when the days are laid out. */
  method QueryDays(users: map<Id, User>, slug: string, span: nat, query: Time, ghost shown: Time)
    returns (got: map<string, nat>)
    requires query <= shown && Dated(users) && span >= 1
    requires forall day :: DayNumber(shown) - span < day <= DayNumber(shown) ==> InCalendar(day)
    ensures HoldsCounts(got, DateOf, CountOf(users, slug), DayNumber(shown), span)
  {
    got := GroupRows(DatesSince(users, slug, Trunc(SECOND, query) - span * DAY));
    GroupsHoldCounts(got, users, slug, span, query, shown);
  }

  /** One entry per day, oldest first and ending today, each with the date as text and the
      number of users created on that day, even when midnight passes between the query and
      the layout. Days are counted from the epoch. */
  method EnlistmentsByDay(users: map<Id, User>, slug: string, days: int, query: Time, shown: Time)
    returns (out: seq<DayCount>, ghost first: int)
    requires query <= shown && Dated(users)
    requires forall day :: DayNumber(shown) - ClampDays(days) < day <= DayNumber(shown) ==> InCalendar(day)
    ensures |out| == if days < 1 then 1 else if days > 365 then 365 else days
    ensures first + |out| - 1 == shown / 86_400_000_000_000
    ensures DatedFrom(DateOf, first, out) && CountedFrom(users, slug, first, out)
  {
    var span := ClampDays(days);
    var got := QueryDays(users, slug, span, query, shown);
    out := LayOut(got, DateOf, CountOf(users, slug), span, DayNumber(shown));
    first := DayNumber(shown) - (|out| - 1);
    SeriesCounts(users, slug, first, out);
    SeriesDates(DateOf, CountOf(users, slug), first, out);
  }

  /** Entries of consecutive days from the first one, each with its date and its count. */
  ghost predicate Series(date: int -> string, count: int -> nat, first: int, out: seq<DayCount>) {
    forall i :: 0 <= i < |out| ==> out[i] == DayCount(date(first + i), count(first + i))
  }

  method LayOut(got: map<string, nat>, date: int -> string, ghost count: int -> nat, span: nat, today: int)
    returns (out: seq<DayCount>)
    requires HoldsCounts(got, date, count, today, span)
    ensures |out| == span && Series(date, count, today - (|out| - 1), out)
  {
    out := [];
    var i := span - 1;
    while i >= 0
      invariant -1 <= i < span && |out| == span - 1 - i
      invariant Series(date, count, today - (span - 1), out)
    {
      var day := date(today - i);
      out := out + [DayCount(day, Lookup(got, day))];
      i := i - 1;
    }
  }
}
