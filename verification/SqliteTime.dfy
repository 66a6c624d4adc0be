/** SQLite keeps times as fixed-width UTC text and compares text. Section 5.6 of RFC 3339
    gives the form, section 5.1 the ordering this rests on. */
module SqliteTime {
  import opened Tables
  import opened Clock

  // ---------- calendar ----------

  datatype Civil = Civil(year: nat, month: nat, day: nat, hour: nat, minute: nat, second: nat)

  predicate Leap(y: nat) {
    y % 4 == 0 && (y % 100 != 0 || y % 400 == 0)
  }

  function DaysIn(y: nat, m: nat): nat {
    if m == 2 then (if Leap(y) then 29 else 28)
    else if m in {4, 6, 9, 11} then 30 else 31
  }

  predicate ValidDate(y: nat, m: nat, d: nat) {
    y <= 9999 && 1 <= m <= 12 && 1 <= d <= DaysIn(y, m)
  }

  predicate ValidCivil(c: Civil) {
    ValidDate(c.year, c.month, c.day) && c.hour < 24 && c.minute < 60 && c.second < 60
  }

  function DaysBeforeYear(y: nat): nat {
    365 * y + (y + 3) / 4 - (y + 99) / 100 + (y + 399) / 400
  }

  function DaysBeforeMonth(y: nat, m: nat): nat {
    if m <= 1 then 0 else DaysBeforeMonth(y, m - 1) + DaysIn(y, m - 1)
  }

  /** From March on the months follow the pattern 31, 30, 31, 30, 31 of 153 days, whatever
      February is. */
  lemma {:induction false} MonthPattern(y: nat, m: nat)
    requires 3 <= m <= 13
    ensures DaysBeforeMonth(y, m) == (153 * (m - 3) + 2) / 5 + 31 + (if Leap(y) then 29 else 28)
  {
    assert DaysBeforeMonth(y, 2) == 31;
    if m > 3 { MonthPattern(y, m - 1); }
  }

  const EPOCH_DAY := 719528

  /** Days since 1970-01-01. */
  function DayOf(y: nat, m: nat, d: nat): int {
    DaysBeforeYear(y) + DaysBeforeMonth(y, m) + d - 1 - EPOCH_DAY
  }

  function SecondOfDay(c: Civil): nat {
    c.hour * 3600 + c.minute * 60 + c.second
  }

  /** Seconds since the Unix epoch. */
  function Unix(c: Civil): int {
    DayOf(c.year, c.month, c.day) * 86400 + SecondOfDay(c)
  }

  lemma Fourths(y: nat)
    ensures (y + 4) / 4 == (y + 3) / 4 + (if y % 4 == 0 then 1 else 0)
  {
  }

  lemma Hundredths(y: nat)
    ensures (y + 100) / 100 == (y + 99) / 100 + (if y % 100 == 0 then 1 else 0)
  {
  }

  lemma FourHundredths(y: nat)
    ensures (y + 400) / 400 == (y + 399) / 400 + (if y % 400 == 0 then 1 else 0)
  {
  }

  lemma CenturiesDivide(y: nat)
    ensures y % 400 == 0 ==> y % 100 == 0
    ensures y % 100 == 0 ==> y % 4 == 0
  {
    if y % 400 == 0 { SameQuotient(100, y / 100, 4 * (y / 400), y % 100, 0); }
    if y % 100 == 0 { SameQuotient(4, y / 4, 25 * (y / 100), y % 4, 0); }
  }

  lemma YearLength(y: nat)
    ensures DaysBeforeYear(y + 1) == DaysBeforeYear(y) + (if Leap(y) then 366 else 365)
  {
    Fourths(y);
    Hundredths(y);
    FourHundredths(y);
    CenturiesDivide(y);
  }

  lemma MonthsFillYear(y: nat)
    ensures DaysBeforeYear(y) + DaysBeforeMonth(y, 13) == DaysBeforeYear(y + 1)
  {
    YearLength(y);
    assert DaysBeforeMonth(y, 2) == 31;
    assert DaysBeforeMonth(y, 3) == 31 + DaysIn(y, 2);
    assert DaysBeforeMonth(y, 5) == 92 + DaysIn(y, 2) by { assert DaysBeforeMonth(y, 4) == 62 + DaysIn(y, 2); }
    assert DaysBeforeMonth(y, 7) == 153 + DaysIn(y, 2) by { assert DaysBeforeMonth(y, 6) == 123 + DaysIn(y, 2); }
    assert DaysBeforeMonth(y, 9) == 215 + DaysIn(y, 2) by { assert DaysBeforeMonth(y, 8) == 184 + DaysIn(y, 2); }
    assert DaysBeforeMonth(y, 11) == 276 + DaysIn(y, 2) by { assert DaysBeforeMonth(y, 10) == 245 + DaysIn(y, 2); }
    assert DaysBeforeMonth(y, 13) == 337 + DaysIn(y, 2) by { assert DaysBeforeMonth(y, 12) == 306 + DaysIn(y, 2); }
  }

  lemma YearsGrow(y: nat, z: nat)
    requires y <= z
    ensures DaysBeforeYear(y) <= DaysBeforeYear(z)
  {
  }

  lemma {:induction false} MonthsGrow(y: nat, m: nat, n: nat)
    requires 1 <= m <= n
    ensures DaysBeforeMonth(y, m) <= DaysBeforeMonth(y, n)
    decreases n - m
  {
    if m < n { MonthsGrow(y, m, n - 1); }
  }

  predicate DateBefore(y: nat, m: nat, d: nat, y': nat, m': nat, d': nat) {
    y < y' || (y == y' && (m < m' || (m == m' && d < d')))
  }

  lemma DateOrder(y: nat, m: nat, d: nat, y': nat, m': nat, d': nat)
    requires ValidDate(y, m, d) && ValidDate(y', m', d') && DateBefore(y, m, d, y', m', d')
    ensures DayOf(y, m, d) < DayOf(y', m', d')
  {
    if y < y' {
      YearsGrow(y + 1, y');
      MonthsFillYear(y);
      MonthsGrow(y, m + 1, 13);
    } else if m < m' {
      MonthsGrow(y, m + 1, m');
    }
  }

  /** Field by field, most significant first. */
  predicate Before(a: Civil, b: Civil) {
    || DateBefore(a.year, a.month, a.day, b.year, b.month, b.day)
    || (&& a.year == b.year && a.month == b.month && a.day == b.day
        && (|| a.hour < b.hour
            || (a.hour == b.hour && (a.minute < b.minute || (a.minute == b.minute && a.second < b.second)))))
  }

  lemma EpochIsDayZero()
    ensures DayOf(1970, 1, 1) == 0
  {
  }

  /** Midnight of 1 January 1970. */
  predicate IsEpoch(c: Civil) {
    c.year == 1970 && c.month == 1 && c.day == 1 && SecondOfDay(c) == 0
  }

  /** Field order is time order, counted from the Unix epoch. */
  lemma CivilOrder(a: Civil, b: Civil)
    requires ValidCivil(a) && ValidCivil(b)
    ensures Before(a, b) <==> Unix(a) < Unix(b)
    ensures Unix(a) == Unix(b) <==> a == b
    ensures IsEpoch(a) ==> Unix(a) == 0
  {
    EpochIsDayZero();
    if DateBefore(a.year, a.month, a.day, b.year, b.month, b.day) {
      DateOrder(a.year, a.month, a.day, b.year, b.month, b.day);
    } else if DateBefore(b.year, b.month, b.day, a.year, a.month, a.day) {
      DateOrder(b.year, b.month, b.day, a.year, a.month, a.day);
    }
  }

  // ---------- from instants to fields ----------

  predicate InCalendar(day: int) {
    0 <= day + EPOCH_DAY < DaysBeforeYear(10000)
  }

  function YearFrom(n: nat, y: nat): (r: nat)
    requires y < 10000 && DaysBeforeYear(y) <= n < DaysBeforeYear(10000)
    ensures r < 10000 && DaysBeforeYear(r) <= n < DaysBeforeYear(r + 1)
    decreases 10000 - y
  {
    if n < DaysBeforeYear(y + 1) then y else YearFrom(n, y + 1)
  }

  function MonthFrom(y: nat, n: nat, m: nat): (r: nat)
    requires 1 <= m <= 12 && DaysBeforeMonth(y, m) <= n < DaysBeforeMonth(y, 13)
    ensures 1 <= r <= 12 && DaysBeforeMonth(y, r) <= n < DaysBeforeMonth(y, r + 1)
    decreases 12 - m
  {
    if n < DaysBeforeMonth(y, m + 1) then m else MonthFrom(y, n, m + 1)
  }

  lemma ClockFields(s: nat)
    requires s < 86400
    ensures s / 3600 < 24 && s % 3600 / 60 < 60 && s % 60 < 60
    ensures s / 3600 * 3600 + s % 3600 / 60 * 60 + s % 60 == s
  {
  }

  function DateOfDay(day: int): (r: (nat, nat, nat))
    requires InCalendar(day)
    ensures ValidDate(r.0, r.1, r.2) && DayOf(r.0, r.1, r.2) == day
  {
    var n := day + EPOCH_DAY;
    var y := YearFrom(n, 0);
    MonthsFillYear(y);
    var m := MonthFrom(y, n - DaysBeforeYear(y), 1);
    (y, m, n - DaysBeforeYear(y) - DaysBeforeMonth(y, m) + 1)
  }

  /** The fields strftime prints for a second of the Unix clock. */
  function FromUnix(t: int): (c: Civil)
    requires InCalendar(t / 86400)
    ensures ValidCivil(c) && Unix(c) == t
  {
    var date := DateOfDay(t / 86400);
    var s := t % 86400;
    ClockFields(s);
    Civil(date.0, date.1, date.2, s / 3600, s % 3600 / 60, s % 60)
  }

  lemma FieldsRoundTrip(c: Civil)
    requires ValidCivil(c)
    ensures InCalendar(Unix(c) / 86400) && FromUnix(Unix(c)) == c
  {
    assert Unix(c) / 86400 == DayOf(c.year, c.month, c.day);
    MonthsGrow(c.year, c.month + 1, 13);
    MonthsFillYear(c.year);
    YearsGrow(c.year + 1, 10000);
    CivilOrder(FromUnix(Unix(c)), c);
  }

  // ---------- text ----------

  function Digit(n: nat): char
    requires n < 10
  {
    '0' + n as char
  }

  function Pow10(w: nat): nat {
    if w == 0 then 1 else 10 * Pow10(w - 1)
  }

  /** n in decimal, padded to w digits. */
  function Digits(n: nat, w: nat): (s: string)
    ensures |s| == w
  {
    if w == 0 then [] else Digits(n / 10, w - 1) + [Digit(n % 10)]
  }

  /** Byte order, as SQLite compares TEXT. */
  predicate TextLess(s: string, t: string) {
    if t == [] then false
    else if s == [] then true
    else s[0] < t[0] || (s[0] == t[0] && TextLess(s[1..], t[1..]))
  }

  lemma {:induction false} TextLessAppend(a: string, b: string, x: string, y: string)
    requires |a| == |b|
    ensures TextLess(a + x, b + y) <==> TextLess(a, b) || (a == b && TextLess(x, y))
  {
    if a == [] {
      assert a + x == x && b + y == y;
    } else {
      assert (a + x)[1..] == a[1..] + x && (b + y)[1..] == b[1..] + y;
      TextLessAppend(a[1..], b[1..], x, y);
      assert a == [a[0]] + a[1..] && b == [b[0]] + b[1..];
    }
  }

  lemma {:induction false} DigitsOrder(n: nat, m: nat, w: nat)
    requires n < Pow10(w) && m < Pow10(w)
    ensures TextLess(Digits(n, w), Digits(m, w)) <==> n < m
    ensures Digits(n, w) == Digits(m, w) <==> n == m
  {
    if w > 0 {
      DigitsOrder(n / 10, m / 10, w - 1);
      var a, b := Digits(n / 10, w - 1), Digits(m / 10, w - 1);
      var x, y := [Digit(n % 10)], [Digit(m % 10)];
      TextLessAppend(a, b, x, y);
      assert TextLess(x, y) <==> n % 10 < m % 10 by {
        assert TextLess(x[1..], y[1..]) == false;
      }
      assert (a + x)[..w - 1] == a && (b + y)[..w - 1] == b && (a + x)[w - 1] == x[0] && (b + y)[w - 1] == y[0];
    }
  }

  /** One fixed-width number in front of the rest of the text. */
  lemma NumberFirst(n: nat, m: nat, w: nat, x: string, y: string)
    requires n < Pow10(w) && m < Pow10(w)
    ensures TextLess(Digits(n, w) + x, Digits(m, w) + y) <==> n < m || (n == m && TextLess(x, y))
  {
    DigitsOrder(n, m, w);
    TextLessAppend(Digits(n, w), Digits(m, w), x, y);
  }

  lemma MarkFirst(mark: char, x: string, y: string)
    ensures TextLess([mark] + x, [mark] + y) <==> TextLess(x, y)
  {
  }

  /** strftime writes a 'T' and a 'Z', datetime a space and nothing. A zoned layout also
      reads a numeric offset in place of the 'Z'. */
  datatype Layout = Layout(mark: char, suffix: string, zoned: bool)

  const STRFTIME := Layout('T', "Z", false)
  const DATETIME := Layout(' ', "", false)
  const ZONED := Layout('T', "Z", true)

  function ClockText(c: Civil, suffix: string): string {
    Digits(c.hour, 2) + ([':'] + (Digits(c.minute, 2) + ([':'] + (Digits(c.second, 2) + suffix))))
  }

  function Format(l: Layout, c: Civil): string {
    var day := Digits(c.day, 2) + ([l.mark] + ClockText(c, l.suffix));
    Digits(c.year, 4) + (['-'] + (Digits(c.month, 2) + (['-'] + day)))
  }

  /** Which characters stand where: what strftime('%Y-%m-%dT%H:%M:%SZ') and datetime() write. */
  lemma FormatShape(c: Civil)
    ensures var s := Format(STRFTIME, c); |s| == 20 && s[10] == 'T' && s[19] == 'Z'
    ensures var s := Format(DATETIME, c); |s| == 19 && s[10] == ' '
    ensures ShapeIs(Format(STRFTIME, c), c) && ShapeIs(Format(DATETIME, c), c)
  {
    ShapeOf(STRFTIME, c);
    ShapeOf(DATETIME, c);
  }

  /** Year, month, day, hour, minute and second, in digits at their places. */
  predicate ShapeIs(s: string, c: Civil) {
    && |s| >= 19 && s[4] == s[7] == '-' && s[13] == s[16] == ':'
    && s[..4] == Digits(c.year, 4) && s[5..7] == Digits(c.month, 2) && s[8..10] == Digits(c.day, 2)
    && s[11..13] == Digits(c.hour, 2) && s[14..16] == Digits(c.minute, 2) && s[17..19] == Digits(c.second, 2)
  }

  lemma ShapeOf(l: Layout, c: Civil)
    ensures ShapeIs(Format(l, c), c)
    ensures var s := Format(l, c); |s| == 19 + |l.suffix| && s[10] == l.mark && s[19..] == l.suffix
  {
    var s, k := Format(l, c), ClockText(c, l.suffix);
    ClockShape(c, l.suffix);
    assert s[11..] == k;
    assert s[11..13] == k[..2] && s[14..16] == k[3..5] && s[17..19] == k[6..8] && s[19..] == k[8..];
  }

  lemma ClockShape(c: Civil, suffix: string)
    ensures var s := ClockText(c, suffix);
            && |s| == 8 + |suffix| && s[2] == s[5] == ':' && s[8..] == suffix
            && s[..2] == Digits(c.hour, 2) && s[3..5] == Digits(c.minute, 2) && s[6..8] == Digits(c.second, 2)
  {
  }

  lemma {:induction false} NotLessSelf(s: string)
    ensures !TextLess(s, s)
  {
    if s != [] { NotLessSelf(s[1..]); }
  }

  lemma PowersOfTen()
    ensures Pow10(2) == 100 && Pow10(4) == 10000
  {
  }

  lemma ClockTextOrder(a: Civil, b: Civil, suffix: string)
    requires ValidCivil(a) && ValidCivil(b)
    ensures TextLess(ClockText(a, suffix), ClockText(b, suffix)) <==>
              || a.hour < b.hour
              || (a.hour == b.hour && (a.minute < b.minute || (a.minute == b.minute && a.second < b.second)))
  {
    PowersOfTen();
    var sa, sb := Digits(a.second, 2) + suffix, Digits(b.second, 2) + suffix;
    var ma, mb := Digits(a.minute, 2) + ([':'] + sa), Digits(b.minute, 2) + ([':'] + sb);
    NumberFirst(a.hour, b.hour, 2, [':'] + ma, [':'] + mb);
    MarkFirst(':', ma, mb);
    NumberFirst(a.minute, b.minute, 2, [':'] + sa, [':'] + sb);
    MarkFirst(':', sa, sb);
    NumberFirst(a.second, b.second, 2, suffix, suffix);
    NotLessSelf(suffix);
  }

  lemma FormatOrder(l: Layout, a: Civil, b: Civil)
    requires ValidCivil(a) && ValidCivil(b)
    ensures TextLess(Format(l, a), Format(l, b)) <==> Before(a, b)
  {
    PowersOfTen();
    var ta, tb := ClockText(a, l.suffix), ClockText(b, l.suffix);
    var da, db := Digits(a.day, 2) + ([l.mark] + ta), Digits(b.day, 2) + ([l.mark] + tb);
    var ma, mb := Digits(a.month, 2) + (['-'] + da), Digits(b.month, 2) + (['-'] + db);
    NumberFirst(a.year, b.year, 4, ['-'] + ma, ['-'] + mb);
    MarkFirst('-', ma, mb);
    NumberFirst(a.month, b.month, 2, ['-'] + da, ['-'] + db);
    MarkFirst('-', da, db);
    NumberFirst(a.day, b.day, 2, [l.mark] + ta, [l.mark] + tb);
    MarkFirst(l.mark, ta, tb);
    ClockTextOrder(a, b, l.suffix);
  }

  // ---------- times as text ----------

  predicate Writable(t: Time) {
    InCalendar(t / SECOND / 86400)
  }

  /** The text SQLite stores for a clock reading. */
  function TimeText(l: Layout, t: Time): string
    requires Writable(t)
  {
    Format(l, FromUnix(t / SECOND))
  }

  function DateText(y: nat, m: nat, d: nat): string {
    Digits(y, 4) + (['-'] + (Digits(m, 2) + (['-'] + Digits(d, 2))))
  }

  /** The text strftime('%Y-%m-%d') and the Go format "2006-01-02" give for a day. */
  function DayText(day: int): string
    requires InCalendar(day)
  {
    var date := DateOfDay(day);
    DateText(date.0, date.1, date.2)
  }

  lemma DateTextIsPrefix(l: Layout, c: Civil)
    ensures |Format(l, c)| >= 10 && Format(l, c)[..10] == DateText(c.year, c.month, c.day)
  {
  }

  /** The date part of a stored text is the text of its day. */
  lemma DayTextIsPrefix(l: Layout, t: Time)
    requires Writable(t)
    ensures |TimeText(l, t)| >= 10 && TimeText(l, t)[..10] == DayText(t / SECOND / 86400)
  {
    DateTextIsPrefix(l, FromUnix(t / SECOND));
  }

  lemma SameParts(a: string, b: string, x: string, y: string)
    requires |a| == |b| && a + x == b + y
    ensures a == b && x == y
  {
    assert a == (a + x)[..|a|] == (b + y)[..|b|] == b;
    assert x == (a + x)[|a|..] == (b + y)[|b|..] == y;
  }

  lemma DateTextExactly(y: nat, m: nat, d: nat, y': nat, m': nat, d': nat)
    requires ValidDate(y, m, d) && ValidDate(y', m', d') && DateText(y, m, d) == DateText(y', m', d')
    ensures y == y' && m == m' && d == d'
  {
    PowersOfTen();
    var s, s' := Digits(m, 2) + (['-'] + Digits(d, 2)), Digits(m', 2) + (['-'] + Digits(d', 2));
    SameParts(Digits(y, 4), Digits(y', 4), ['-'] + s, ['-'] + s');
    SameParts(['-'], ['-'], s, s');
    SameParts(Digits(m, 2), Digits(m', 2), ['-'] + Digits(d, 2), ['-'] + Digits(d', 2));
    SameParts(['-'], ['-'], Digits(d, 2), Digits(d', 2));
    DigitsOrder(y, y', 4);
    DigitsOrder(m, m', 2);
    DigitsOrder(d, d', 2);
  }

  /** Different days have different texts. */
  lemma DayTextExactly(a: int, b: int)
    requires InCalendar(a) && InCalendar(b)
    ensures DayText(a) == DayText(b) <==> a == b
  {
    var x, y := DateOfDay(a), DateOfDay(b);
    if DayText(a) == DayText(b) {
      DateTextExactly(x.0, x.1, x.2, y.0, y.1, y.2);
    }
  }

  /** Comparing stored texts compares recorded times: the WHERE clauses and ORDER BY of the
      SQLite repositories mean the numeric comparisons. */
  lemma TextComparesTimes(l: Layout, t: Time, u: Time)
    requires Writable(t) && Writable(u)
    ensures TextLess(TimeText(l, t), TimeText(l, u)) <==> Trunc(SECOND, t) < Trunc(SECOND, u)
    ensures TimeText(l, t) == TimeText(l, u) <==> Trunc(SECOND, t) == Trunc(SECOND, u)
  {
    var a, b := FromUnix(t / SECOND), FromUnix(u / SECOND);
    FormatOrder(l, a, b);
    FormatOrder(l, b, a);
    CivilOrder(a, b);
    CivilOrder(b, a);
    NotLessSelf(TimeText(l, t));
  }

  // ---------- reading text back ----------

  /** A parsed text: the fields, the digits of a fraction of a second, if any, and the
      seconds the fields are ahead of UTC. */
  datatype Parsed = Parsed(civil: Civil, fraction: string, offset: int)

  /** The second the text names. */
  function UnixOf(p: Parsed): int {
    Unix(p.civil) - p.offset
  }

  predicate IsDigit(c: char) {
    '0' <= c <= '9'
  }

  function Value(s: string): nat
    requires forall i :: 0 <= i < |s| ==> IsDigit(s[i])
  {
    if s == [] then 0
    else
      assert IsDigit(s[|s| - 1]);
      10 * Value(s[..|s| - 1]) + (s[|s| - 1] as int - '0' as int)
  }

  /** Exactly w digits, and what follows them. */
  function EatNumber(s: string, w: nat): Option<(nat, string)> {
    if w <= |s| && forall i :: 0 <= i < w ==> IsDigit(s[..w][i]) then Some((Value(s[..w]), s[w..])) else None
  }

  /** The hour may also be a single digit. */
  function EatHour(s: string): Option<(nat, string)> {
    var two := EatNumber(s, 2);
    if two.Some? then two else EatNumber(s, 1)
  }

  function EatMark(s: string, mark: char): Option<string> {
    if s != [] && s[0] == mark then Some(s[1..]) else None
  }

  function DigitRun(s: string): (n: nat)
    ensures n <= |s|
  {
    if s != [] && IsDigit(s[0]) then 1 + DigitRun(s[1..]) else 0
  }

  /** A fraction is accepted behind the seconds even where the layout has none. */
  function EatFraction(s: string): (string, string) {
    if |s| >= 2 && s[0] in {'.', ','} && IsDigit(s[1]) then
      var n := DigitRun(s[1..]);
      (s[1..1 + n], s[1 + n..])
    else ([], s)
  }

  /** The fields, the fraction and what follows them. */
  function EatClock(y: nat, m: nat, d: nat, s: string): Option<(Civil, string, string)> {
    match EatHour(s) case None => None case Some((h, s1)) =>
    match EatMark(s1, ':') case None => None case Some(s2) =>
    match EatNumber(s2, 2) case None => None case Some((mi, s3)) =>
    match EatMark(s3, ':') case None => None case Some(s4) =>
    match EatNumber(s4, 2) case None => None case Some((sec, s5)) =>
    var (fraction, rest) := EatFraction(s5);
    Some((Civil(y, m, d, h, mi, sec), fraction, rest))
  }

  function EatDateTime(mark: char, s: string): Option<(Civil, string, string)> {
    match EatNumber(s, 4) case None => None case Some((y, s1)) =>
    match EatMark(s1, '-') case None => None case Some(s2) =>
    match EatNumber(s2, 2) case None => None case Some((m, s3)) =>
    match EatMark(s3, '-') case None => None case Some(s4) =>
    match EatNumber(s4, 2) case None => None case Some((d, s5)) =>
    match EatMark(s5, mark) case None => None case Some(s6) =>
    EatClock(y, m, d, s6)
  }

  /** 'Z' or a sign, hours, a colon and minutes; the ranges are those of the time package. */
  function ReadZone(s: string): Option<int> {
    if s == "Z" then Some(0)
    else if |s| == 6 && s[0] in {'+', '-'} then
      match EatNumber(s[1..], 2) case None => None case Some((h, s1)) =>
      match EatMark(s1, ':') case None => None case Some(s2) =>
      match EatNumber(s2, 2) case None => None case Some((m, _)) =>
      if h > 24 || m > 60 then None
      else Some(if s[0] == '-' then -((h * 60 + m) * 60) else (h * 60 + m) * 60)
    else None
  }

  /** One layout, consumed left to right, then the range checks. */
  function Parse(l: Layout, s: string): Option<Parsed> {
    match EatDateTime(l.mark, s) case None => None case Some((c, fraction, rest)) =>
    var zone := if l.zoned then ReadZone(rest) else if rest == l.suffix then Some(0) else None;
    if zone.Some? && ValidCivil(c) then Some(Parsed(c, fraction, zone.value)) else None
  }

  /** The first layout that fits. */
  function FirstMatch(layouts: seq<Layout>, s: string): Option<Parsed> {
    if layouts == [] then None
    else if Parse(layouts[0], s).Some? then Parse(layouts[0], s)
    else FirstMatch(layouts[1..], s)
  }

  function ParseSqliteTime(s: string): Option<Parsed> {
    FirstMatch([STRFTIME, DATETIME, ZONED], s)
  }

  lemma {:induction false} DigitsAreDigits(n: nat, w: nat)
    ensures forall i :: 0 <= i < w ==> IsDigit(Digits(n, w)[i])
  {
    if w > 0 { DigitsAreDigits(n / 10, w - 1); }
  }

  lemma {:induction false} ValueOfDigits(n: nat, w: nat)
    requires n < Pow10(w)
    ensures (forall i :: 0 <= i < w ==> IsDigit(Digits(n, w)[i])) && Value(Digits(n, w)) == n
  {
    DigitsAreDigits(n, w);
    if w > 0 {
      ValueOfDigits(n / 10, w - 1);
      assert Digits(n, w)[..w - 1] == Digits(n / 10, w - 1);
    }
  }

  lemma EatDigits(n: nat, w: nat, rest: string)
    requires n < Pow10(w)
    ensures EatNumber(Digits(n, w) + rest, w) == Some((n, rest))
  {
  }

  lemma EatOwnMark(mark: char, rest: string)
    ensures EatMark([mark] + rest, mark) == Some(rest)
  {
  }

  /** A suffix that cannot be taken for a fraction. */
  predicate Plain(suffix: string) {
    suffix == [] || suffix[0] !in {'.', ','}
  }

  lemma EatClockText(c: Civil, suffix: string)
    requires ValidCivil(c)
    ensures EatClock(c.year, c.month, c.day, ClockText(c, suffix))
         == Some((c, EatFraction(suffix).0, EatFraction(suffix).1))
  {
    PowersOfTen();
    var s4 := Digits(c.second, 2) + suffix;
    var s2 := Digits(c.minute, 2) + ([':'] + s4);
    EatDigits(c.hour, 2, [':'] + s2);
    EatOwnMark(':', s2);
    EatDigits(c.minute, 2, [':'] + s4);
    EatOwnMark(':', s4);
    EatDigits(c.second, 2, suffix);
  }

  lemma EatFormatted(l: Layout, c: Civil)
    requires ValidCivil(c) && Plain(l.suffix)
    ensures EatDateTime(l.mark, Format(l, c)) == Some((c, [], l.suffix))
    ensures forall mark :: mark != l.mark ==> EatDateTime(mark, Format(l, c)) == None
  {
    EatWritten(l, c);
  }

  lemma EatWritten(l: Layout, c: Civil)
    requires ValidCivil(c)
    ensures EatDateTime(l.mark, Format(l, c)) == Some((c, EatFraction(l.suffix).0, EatFraction(l.suffix).1))
    ensures forall mark :: mark != l.mark ==> EatDateTime(mark, Format(l, c)) == None
  {
    PowersOfTen();
    var s6 := ClockText(c, l.suffix);
    var s4 := Digits(c.day, 2) + ([l.mark] + s6);
    var s2 := Digits(c.month, 2) + (['-'] + s4);
    EatDigits(c.year, 4, ['-'] + s2);
    EatOwnMark('-', s2);
    EatDigits(c.month, 2, ['-'] + s4);
    EatOwnMark('-', s4);
    EatDigits(c.day, 2, [l.mark] + s6);
    EatOwnMark(l.mark, s6);
    EatClockText(c, l.suffix);
  }

  /** A layout reads back what it wrote, and rejects a text with another mark. */
  lemma ParseFormat(l: Layout, c: Civil)
    requires ValidCivil(c) && (if l.zoned then l.suffix == "Z" else Plain(l.suffix))
    ensures Parse(l, Format(l, c)) == Some(Parsed(c, [], 0))
    ensures forall k: Layout :: k.mark != l.mark ==> Parse(k, Format(l, c)) == None
  {
    EatFormatted(l, c);
  }

  lemma FirstOfThree(a: Layout, b: Layout, c: Layout, s: string)
    ensures FirstMatch([a, b, c], s)
         == if Parse(a, s).Some? then Parse(a, s) else if Parse(b, s).Some? then Parse(b, s) else Parse(c, s)
  {
    assert [a, b, c][1..] == [b, c] && [b, c][1..] == [c] && [c][1..] == [];
    assert FirstMatch([c], s) == Parse(c, s);
  }

  lemma FirstMatchFormat(l: Layout, c: Civil)
    requires ValidCivil(c) && l in {STRFTIME, DATETIME}
    ensures ParseSqliteTime(Format(l, c)) == Some(Parsed(c, [], 0))
  {
    ParseFormat(l, c);
    FirstOfThree(STRFTIME, DATETIME, ZONED, Format(l, c));
  }

  lemma {:induction false} RunOfDigits(digits: string, rest: string)
    requires (forall i :: 0 <= i < |digits| ==> IsDigit(digits[i])) && (rest == [] || !IsDigit(rest[0]))
    ensures DigitRun(digits + rest) == |digits|
  {
    if digits == [] {
      assert digits + rest == rest;
    } else {
      RunOfDigits(digits[1..], rest);
      assert (digits + rest)[1..] == digits[1..] + rest;
    }
  }

  lemma EatOwnFraction(point: char, digits: string)
    requires point in {'.', ','} && digits != [] && forall i :: 0 <= i < |digits| ==> IsDigit(digits[i])
    ensures EatFraction([point] + (digits + "Z")) == (digits, "Z")
  {
    var suffix := [point] + (digits + "Z");
    RunOfDigits(digits, "Z");
    assert suffix[1..] == digits + "Z" && suffix[1] == digits[0];
    assert suffix[1..1 + |digits|] == digits && suffix[1 + |digits|..] == "Z";
  }

  lemma ParseWritten(c: Civil, suffix: string, fraction: string)
    requires ValidCivil(c) && EatFraction(suffix) == (fraction, "Z")
    ensures ParseSqliteTime(Format(Layout('T', suffix, false), c)) == Some(Parsed(c, fraction, 0))
  {
    EatWritten(Layout('T', suffix, false), c);
    FirstOfThree(STRFTIME, DATETIME, ZONED, Format(Layout('T', suffix, false), c));
  }

  /** A fraction behind the seconds, which no layout names, is read all the same. */
  lemma FractionReads(c: Civil, point: char, digits: string)
    requires ValidCivil(c) && point in {'.', ','} && digits != []
    requires forall i :: 0 <= i < |digits| ==> IsDigit(digits[i])
    ensures ParseSqliteTime(Format(Layout('T', [point] + (digits + "Z"), false), c)) == Some(Parsed(c, digits, 0))
  {
    EatOwnFraction(point, digits);
    ParseWritten(c, [point] + (digits + "Z"), digits);
  }

  /** The numeric form of a zone. */
  function OffsetText(sign: char, h: nat, m: nat): string {
    [sign] + (Digits(h, 2) + ([':'] + Digits(m, 2)))
  }

  lemma ReadOffset(sign: char, h: nat, m: nat)
    requires sign in {'+', '-'} && h <= 24 && m <= 60
    ensures ReadZone(OffsetText(sign, h, m)) == Some(if sign == '-' then -(h * 3600 + m * 60) else h * 3600 + m * 60)
  {
    PowersOfTen();
    var s := OffsetText(sign, h, m);
    assert s[1..] == Digits(h, 2) + ([':'] + Digits(m, 2));
    EatDigits(h, 2, [':'] + Digits(m, 2));
    EatOwnMark(':', Digits(m, 2));
    EatDigits(m, 2, []);
    assert Digits(m, 2) + [] == Digits(m, 2);
  }

  /** A text with a numeric offset, which only the last layout takes, names the second that
      its fields name in UTC, less the offset. */
  lemma OffsetTextReads(c: Civil, sign: char, h: nat, m: nat)
    requires ValidCivil(c) && sign in {'+', '-'} && h <= 24 && m <= 60
    ensures var offset := if sign == '-' then -(h * 3600 + m * 60) else h * 3600 + m * 60;
            var read := ParseSqliteTime(Format(Layout('T', OffsetText(sign, h, m), true), c));
            read == Some(Parsed(c, [], offset)) && UnixOf(read.value) == Unix(c) - offset
  {
    EatFormatted(Layout('T', OffsetText(sign, h, m), true), c);
    ReadOffset(sign, h, m);
    assert |OffsetText(sign, h, m)| == 6;
    FirstOfThree(STRFTIME, DATETIME, ZONED, Format(Layout('T', OffsetText(sign, h, m), true), c));
  }

  lemma WholeSeconds(t: Time)
    ensures t / SECOND * SECOND == Trunc(SECOND, t)
  {
  }

  /** Whatever the SQLite code writes, the scanners read back as the recorded time, and
      writing that again gives the same text. */
  lemma StoredTextRoundTrip(l: Layout, t: Time)
    requires Writable(t) && l in {STRFTIME, DATETIME}
    ensures var read := ParseSqliteTime(TimeText(l, t));
            && read.Some? && read.value.fraction == [] && ValidCivil(read.value.civil)
            && UnixOf(read.value) * SECOND == Trunc(SECOND, t)
            && Format(l, read.value.civil) == TimeText(l, t)
  {
    FirstMatchFormat(l, FromUnix(t / SECOND));
    WholeSeconds(t);
  }

  /** The generated column holds the weighted time as text, so ORDER BY weighted_created_at
      lists rows by weighted time. */
  lemma {:induction false} WeightedTextOrder(r: Row, q: Row)
    requires Aligned(SECOND, r.createdAt) && Aligned(SECOND, q.createdAt)
    requires Writable(Weighted(r)) && Writable(Weighted(q))
    ensures TextLess(TimeText(DATETIME, Weighted(r)), TimeText(DATETIME, Weighted(q))) <==> Weighted(r) < Weighted(q)
  {
    TextComparesTimes(DATETIME, Weighted(r), Weighted(q));
    WeightedAligned(r);
    WeightedAligned(q);
  }

  lemma WeightedAligned(r: Row)
    requires Aligned(SECOND, r.createdAt)
    ensures Trunc(SECOND, Weighted(r)) == Weighted(r)
  {
  }
}
