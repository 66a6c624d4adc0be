# Waiting list service: model and proofs

The service keeps users, a waiting list and a few time stamps in one database, shared by
several projects. People sign up and wait; a scheduler promotes the longest-waiting rows in
batches with a cooldown between them; admins grant, revoke and remove; a digest job mails what
is new. This project models those actors in Dafny and proves what holds over every run of them.

## How it is modelled

- `Tables.dfy` has the three tables as a value `Db` (maps for `user_entity`, `waiting_list` and
  `scheduler_state`), the constraints of the migrations, and one function per SQL statement.
- `Lifecycle.dfy` has the steps (sign-up, scheduler batch, grant, revoke, row deletion, digest
  stamp) as functions on `Db`, runs of them, and the invariants of every such run. A step carries the
  clock reading `now` and the time `at` the database records for it, the identifiers it draws,
  and, for a batch, the order in which the database lists rows of equal weighted time. Nothing
  is assumed about that order beyond what `ORDER BY` promises.
- `AccessMachine.dfy` is the four-state machine one (project, email) goes through, `Moves.dfy`
  why it has no move the service does not make.
- `Tenancy.dfy` is non-interference between projects, `SplitTenancy.dfy` the same for split runs.
- `Selection.dfy`, `Scheduler.dfy` and `Process.dfy` are the scheduler: what a batch selects,
  why nobody starves, and the loop and transaction that do it. `TurnEffect.dfy` says what a turn
  does to the tables in the columns and in the project's own settings, `Overrides.dfy` the same
  over whole runs. `StarvationBound.dfy` says with which windows the starvation bound holds,
  `TurnFairness.dfy` when a turn can pass over an older row.
- `SplitScheduler.dfy` is the scheduler as it really runs, reading the batch before the
  transaction that commits it, with other transactions in between, and the clock again for every
  entry; the invariants that survive this, and the stale set. On it rest `RateBound.dfy`, the rate
  of promotion, `FullWindow.dfy`, when the full window is kept, and `SplitProgress.dfy`, why
  nobody starves.
- `Digest.dfy`, `DigestGap.dfy` and `DigestProcess.dfy` are the digest job: its reports over any
  number of runs interrupted by all other transactions, those of the split scheduler included,
  and one run as a method. `DigestTenancy.dfy` is non-interference for what is mailed and stamped.
- `Database.dfy`, `Repositories.dfy` and `Handlers.dfy` are the imperative layer: a connection, a
  transaction with commit and rollback, the repository calls, the endpoints. Each call takes
  whether it fails, so a contract covers every pattern of failing calls. Each method is proved
  against the steps of `Lifecycle.dfy`.
- `Clock.dfy` and `SqliteTime.dfy` are recorded times: truncation to the storage resolution, the
  Gregorian calendar, the fixed-width UTC text SQLite stores, and its comparison as text.
- `Dashboard.dfy` and `Histogram.dfy` are the counters and the sign-ups per day; `Config.dfy` is
  project definitions and the resolution of requests; `Text.dfy` is `strings.TrimSpace`,
  `Utf8.dfy` what `len` counts of a string.

The storage resolution is a parameter `res` where it matters: one second on SQLite, one
microsecond on Postgres. Failed transactions need no steps of their own: the handlers and the
scheduler are shown to leave the tables alone when they fail. The revoke and the row deletion of
an admin run outside a transaction and are stored unless the statement itself fails.

Some properties hold only under a condition, and the condition is exact:

- Recorded batches of one project are a full window apart, over all runs, if and only if the
  window is a multiple of the storage resolution (`FullWindow.WindowKeptExactly`); for every other
  window `FullWindow.EarlyStampHappens` is a scheduler step that breaks it. They are always apart
  by the window cut down to the resolution, and the rate bound holds with that gap; with the full
  window it holds if and only if the window is such a multiple (`FullWindow.RateExactly`).
- Rows signed up after another row is ripe are recorded behind it if and only if the window is
  at least the storage resolution (`Clock.RipeBeatsNew`), and with exactly these windows does every
  run keep the starvation bound (`StarvationBound.StarvationBoundExactly`). With a shorter one a
  row first in line can be overtaken (`StarvationBound.Overtaken`).
- Nobody both waits and has access in atomic runs. In split runs the users who do are exactly
  those replaced while a batch was pending (`SplitScheduler.StaleGrowth`,
  `SplitScheduler.DisjointExactly`), and `SplitScheduler.StaleCanHappen` is such a run. The
  schema and the audit columns survive every split run (`SplitScheduler.SplitRunKeepsInv`).
- The dashboard's total counts each user once if and only if nobody in scope both waits and has
  access (`Dashboard.TotalCountsUsersOnce`); `Dashboard.OverCountCanHappen` is a run after which
  it is two for one user.
- The selection loop reads the clock again for every entry. It promotes the batch of a single
  reading if and only if no entry ripens meanwhile (`SplitScheduler.ChosenIsBatch`). It never
  promotes a row and leaves a strictly older one if and only if the loop takes no longer than the
  storage resolution (`TurnFairness.FairExactly`); in any longer one it can, whatever the window
  (`TurnFairness.LongTurnSkips`).
- The revoke reason is documented, and answered, as at most 500 characters, but the handler
  counts bytes (`internal/handler/admin.go:286`). The two agree if and only if the trimmed reason
  is not within the limit by characters and beyond it by bytes (`Handlers.ReasonLimitExactly`);
  251 accented letters are refused (`Handlers.AccentedReasonRefused`). Here and elsewhere the
  code is followed where the documentation differs.
- The digest misses a row or a grant if and only if it came after a query and was recorded no
  later than the stamp (`Digest.MissedExactly`, `Digest.GrantMissedExactly`), and
  `DigestGap.GapCanHappen` is a run that does.

## Model

| member | source | states |
|---|---|---|
| Lifecycle.RunKeepsInv | migrations/sqlite/001_init.sql:1-48 | in every state atomic runs reach, keys, foreign key and unique indexes hold, rows and users agree on the project, nobody with access waits, and every user's audit columns agree with `has_access`, with each other and with the clock; `SplitScheduler.SplitRunKeepsInv` is the same for split runs, without the separation of access and waiting |
| Lifecycle.ReachableInv | migrations/sqlite/001_init.sql:1-48 | all of it from the empty tables on |
| Lifecycle.StepKeepsInv | internal/repository/sqlite/user.go:180-214 | the inductive step, for sign-up, batch, grant, revoke, row deletion and digest stamp, including regrants and revokes of users never granted |
| Lifecycle.FreshBatchKeepsDisjoint | internal/waitlist/waitlist.go:96-106 | a batch whose rows are still there leaves no row to anybody it grants access |
| Lifecycle.TickCommits | internal/waitlist/waitlist.go:70-117 | a batch grants exactly the owners of its rows, deletes exactly those rows and stamps its own project only |
| AccessMachine.RunSimulates | internal/handler/waitinglist.go:92-146 | every atomic run, seen from one (project, email), walks the machine Absent, Waiting, Admitted, Out |
| AccessMachine.StepSimulates | internal/handler/admin.go:199-346 | every single step is a move the machine allows, or none |
| AccessMachine.ChangesHaveCauses | internal/handler/admin.go:199-346 | access comes only from a grant of that user or from a batch of his project that takes his row, and goes only by a revoke of him with a reason; a row comes only by a sign-up of its login without access, and goes only by its deletion or along with a grant |
| Moves.MovesExactly | internal/handler/admin.go:199-346 | a move is in the machine if and only if some step from some state of the invariant makes it, whatever the login |
| AccessMachine.GrantStatus | internal/handler/admin.go:222-242 | a grant admits its user from any state and moves nobody else |
| AccessMachine.RevokeStatus | internal/repository/sqlite/user.go:478-504 | a revoke puts an admitted user out, leaves a waiting user waiting and moves nobody else |
| AccessMachine.RemoveStatus | internal/repository/sqlite/waitinglist.go:269-283 | deleting a row puts its owner out and moves nobody else |
| AccessMachine.BatchStatus | internal/waitlist/waitlist.go:96-106 | a batch admits its users, all waiting before, and moves nobody else |
| Tenancy.RunRespectsTenants | internal/waitlist/waitlist.go:70-108 | the final users, rows and stamps of a project are those of the run that keeps only the project's own steps, at the same times |
| Tenancy.AdminInPart | internal/handler/admin.go:199-346 | an admin step, though it names a bare identifier, does to one project what it would do if that project were alone |
| Tenancy.OthersTick | internal/repository/sqlite/user.go:180-198 | a batch of another project, though it grants by bare user id, leaves this project alone |
| SplitTenancy.SplitRunRespectsTenants | internal/waitlist/waitlist.go:70-117 | in split runs, the final users, rows and stamps of a project and its pending batch are those of the run of its own actions alone |
| Selection.FetchThenFilter | internal/waitlist/waitlist.go:70-83 | fetching a batch and dropping young entries equals dropping young entries of the whole list and taking a batch |
| Selection.RipeIsPrefix | internal/waitlist/waitlist.go:77-83 | in weighted order the entries past the window are a prefix |
| Selection.MovingClockExactly | internal/waitlist/waitlist.go:77-83 | with the clock read again for every entry, the loop picks what one reading before it would pick if and only if no entry ripens in between, and never fewer |
| Selection.ShortLoopIsFair | internal/waitlist/waitlist.go:77-83 | a loop no longer than the storage resolution never passes over an entry and picks a strictly younger one |
| TurnFairness.FairExactly | internal/waitlist/waitlist.go:70-83 | over all tables of recorded rows and all readings within a span, turns promote no row ahead of a strictly older one left behind if and only if the span is at most the storage resolution |
| TurnFairness.LongTurnSkips | internal/waitlist/waitlist.go:77-83 | for any longer span and any window, tables and readings with which the younger of two recorded rows is promoted and the older left |
| Scheduler.SelectionIsOptimal | internal/repository/sqlite/waitinglist.go:72-112 | a run promotes the first ripe rows of the project, up to the batch size |
| Scheduler.SelectionIsFair | internal/waitlist/waitlist.go:75-106 | no row left behind has an earlier weighted time than one promoted, and each promoted row satisfies now >= created_at - weight * 1h + window |
| Scheduler.RankNeverRises | internal/repository/sqlite/waitinglist.go:42-46 | no step recorded later than a weighted time raises the number of rows at or before it |
| Scheduler.RankFalls | internal/waitlist/waitlist.go:66-106 | outside the cooldown, with a ripe row, a batch is promoted: that row, or exactly a full batch ahead of it |
| Scheduler.DueTicksPromote | internal/waitlist/waitlist.go:66-106 | while a ripe row is still there, every scheduler run outside the cooldown promotes a batch |
| Scheduler.NoStarvation | internal/waitlist/waitlist.go:70-108 | in atomic runs, a ripe row is gone after at most ceil(rank / batch) scheduler runs of its project outside the cooldown, whatever the other steps are |
| StarvationBound.StarvationBoundExactly | internal/waitlist/waitlist.go:70-108 | every run from every state of the schema keeps that bound if and only if the window is at least the storage resolution |
| StarvationBound.Overtaken | migrations/sqlite/001_init.sql:35-37 | for every shorter window, a run in which a row ripe and first in line sees a batch go to somebody who signed up later |
| SplitProgress.SplitNoStarvation | internal/waitlist/waitlist.go:61-117 | in split runs, a ripe row is gone when its project has read and committed ceil(rank / batch) batches since, whatever other transactions, deletions and abandoned batches come in between |
| SplitProgress.ReadIsFull | internal/waitlist/waitlist.go:66-83 | outside the cooldown a batch read while a row is ripe is not empty, and holds that row or is a full batch of different rows at or before it |
| SplitProgress.BatchesReadAreLogged | internal/waitlist/waitlist.go:61-117 | the batches that bound counts are all the batches the run commits for the project, when none was pending before |
| SplitProgress.BudgetStep | internal/waitlist/waitlist.go:70-117 | no action adds to the rows in a ripe row's way, and each batch committed takes a full batch off, even if some of its rows were deleted meanwhile |
| Scheduler.ShortWindowRaisesRank | migrations/sqlite/001_init.sql:35-37 | for any window shorter than the resolution, a concrete sign-up that raises the rank of a ripe row |
| Clock.CooldownSurvivesTruncation | internal/repository/sqlite/scheduler.go:49-60 | a reading that passes the cooldown is always recorded a window after the stamp if and only if the window is a multiple of the resolution; `FullWindow.WindowKeptExactly` is the statement over runs |
| Clock.CooldownGap | internal/waitlist/waitlist.go:66-68 | for any window, recorded stamps are apart by the window cut down to the resolution |
| Clock.RipeBeatsNew | migrations/sqlite/001_init.sql:35-37 | later rows are recorded strictly behind a ripe one if and only if the window is at least the resolution |
| SplitScheduler.StaleGrowth | internal/waitlist/waitlist.go:70-117 | the users who have access and a row grow only at a batch commit, by exactly the batch's users without access whose row was deleted and replaced meanwhile |
| SplitScheduler.StaleOrigin | internal/repository/sqlite/waitinglist.go:237-251 | over whole runs, such users come only from the start or from a replacement |
| SplitScheduler.DisjointExactly | internal/waitlist/waitlist.go:70-117 | from a state with access and waiting apart, they stay apart in every state of a split run if and only if no commit of it promotes a replaced user |
| SplitScheduler.StaleCanHappen | internal/waitlist/waitlist.go:70-117 | at any storage resolution, a run with recorded times that ends with a user both waiting and with access |
| SplitScheduler.AtomicIsSplit | internal/waitlist/waitlist.go:89-117 | read at one clock reading and committed in one go, the split batch is the atomic one |
| SplitScheduler.ChosenIsBatch | internal/waitlist/waitlist.go:61-83 | outside the cooldown a turn promotes the batch of the atomic step if and only if no entry ripens during it |
| SplitScheduler.DoKeepsAudit | internal/waitlist/waitlist.go:89-117 | every action keeps every user's audit columns in agreement, the commit of a batch gone stale included |
| SplitScheduler.SplitRunKeepsInv | migrations/sqlite/001_init.sql:1-48 | in every state split runs reach, schema, project agreement and audit invariant hold |
| RateBound.BatchesAreSpaced | internal/waitlist/waitlist.go:61-117 | over any split run, recorded batches of a project stay within the batch size and at least the (truncated) window apart |
| RateBound.PromotionRate | internal/waitlist/waitlist.go:61-117 | for windows of at least the resolution, any interval of length T holds at most batch * (T / gap + 1) promotions of a project, the gap being the window cut down to the resolution |
| RateBound.AtomicRunsAreSplit | internal/waitlist/waitlist.go:46-132 | every atomic run is a split run with the same final tables and the same promotions |
| RateBound.AtomicPromotionRate | internal/waitlist/waitlist.go:61-117 | the rate bound for atomic runs |
| FullWindow.WindowKeptExactly | internal/waitlist/waitlist.go:61-117 | over all split runs, recorded batches of a project are a full window apart if and only if its window is a multiple of the resolution |
| FullWindow.RateExactly | internal/waitlist/waitlist.go:61-117 | the bound batch * (T / window + 1) with the full window holds over all split runs if and only if the window is a multiple of the resolution |
| FullWindow.BurstBreaks | internal/repository/sqlite/scheduler.go:49-60 | for every other window, a run with two batches of one row each in an interval shorter than the window |
| FullWindow.EarlyStampHappens | internal/repository/sqlite/scheduler.go:49-60 | for every other window, a scheduler step past the cooldown that is recorded less than a window after the stored stamp |
| Dashboard.TotalCountsUsersOnce | internal/repository/sqlite/user.go:273-294 | waiting + with access is the number of distinct users plus the number who are both; it counts each user once if and only if nobody is both, per project and overall |
| Dashboard.TotalWithinUsers | internal/handler/admin.go:108-125 | while access and waiting are apart, the total never exceeds the number of users |
| Dashboard.OverCountCanHappen | internal/handler/admin.go:108-125 | at any storage resolution, a split run after which the total is two and there is one user |
| Dashboard.BatchConserves | internal/repository/sqlite/user.go:273-294 | a batch of k moves exactly k from the waiting counter to the access counter of its own project and of the total, and nothing for any other slug |
| Digest.ReportedAtMostOnce | internal/waitlist/digest.go:96-118 | over any interrupted runs, each stamped run starts where the one before was stamped, and no row or grant is reported by two stamped runs |
| Digest.MissedExactly | internal/waitlist/digest.go:102-118 | a row is missed by two consecutive stamped runs if and only if it was inserted after the first one's query and recorded no later than its stamp; then it is never reported |
| Digest.GrantMissedExactly | internal/waitlist/digest.go:102-118 | a grant is missed by two consecutive stamped runs if and only if the first was not shown it and it was recorded no later than the first one's stamp; then it is never reported |
| Digest.RunKeepsJob | internal/repository/sqlite/scheduler.go:49-60 | after any run of the job the stored stamp is that of the last report, and windows follow each other |
| Digest.OnlyFinishStamps | internal/waitlist/digest.go:96-188 | nothing but a finished run of the job, no act of an unfinished one and no other transaction, moves the stamp or adds a report |
| DigestGap.GapCanHappen | internal/waitlist/digest.go:173-181 | at any storage resolution, a run with recorded times in which a sign-up between query and stamp is reported by nobody |
| DigestProcess.SendDigest | internal/notifier/digest.go:62-85 | every recipient is attempted, the first error is returned, and there is none if and only if every send succeeded |
| DigestProcess.ProcessDigestProject | internal/waitlist/digest.go:86-188 | a mail exists if and only if the reads succeed and a row or a grant of this project is later than the stamp, or than a day ago where there is none; it has one entry per such row and grant with its user's name, address, time and source, oldest first; the stamp advances if and only if there was a mail and every recipient was served, and nothing else changes |
| DigestProcess.UninterruptedRun | internal/waitlist/digest.go:86-188 | a run nobody interrupts is begin, two queries and finish of the job |
| DigestProcess.IdleRun | internal/waitlist/digest.go:86-130 | a run without activity since the stamp mails, stamps and reports nothing |
| DigestProcess.FailedRun | internal/waitlist/digest.go:86-188 | a run in which a query, the mail or the stamp fails neither moves the stamp nor counts as a report, at whichever point it gives up |
| DigestTenancy.MailIsOwn | internal/waitlist/digest.go:86-188 | whether there is a mail, what it may contain and the stamp it starts from depend only on the project's own part of the tables |
| DigestTenancy.JobIsOwn | internal/waitlist/digest.go:86-188 | over any interrupted runs, the windows, reports and stamps of a project are those of the run in which only its own transactions come in between |
| SqliteTime.TextComparesTimes | internal/repository/sqlite/time.go:8-23 | for years 0000 to 9999, comparing stored texts is comparing recorded times, and equal texts are equal times |
| SqliteTime.StoredTextRoundTrip | internal/repository/sqlite/time.go:16-23 | the scanner reads either stored form back as the recorded time, and writing it again gives the same text |
| SqliteTime.WeightedTextOrder | migrations/sqlite/001_init.sql:37 | ordering by the generated text column is ordering by created_at - weight * 1h |
| SqliteTime.CivilOrder | internal/repository/sqlite/time.go:8-23 | calendar fields order as instants do and determine them, counted from midnight of 1 January 1970 |
| SqliteTime.FieldsRoundTrip | internal/repository/sqlite/time.go:8-23 | every valid date and time of the calendar is what its instant is printed as |
| SqliteTime.MonthPattern | internal/repository/sqlite/time.go:8-23 | the days before a month are those of the 153-day pattern from March on, with February as the leap rule says |
| SqliteTime.ParseFormat | internal/repository/sqlite/time.go:16-23 | a layout reads back what it wrote and rejects a text with another mark |
| SqliteTime.FormatShape | internal/repository/sqlite/time.go:8-23 | both stored forms have year, month, day, hour, minute and second in digits at their fixed places, and the marks of their layout |
| SqliteTime.OffsetTextReads | internal/repository/sqlite/time.go:8-23 | a text with a numeric offset is taken by the last layout only and names the second of its fields less the offset |
| SqliteTime.FractionReads | internal/repository/sqlite/time.go:8-23 | a fraction behind the seconds, with a point or a comma, is read with the fields, although the layout names none |
| SqliteTime.DayTextExactly | internal/repository/sqlite/user.go:314-331 | grouping by the text of a date is grouping by day |
| Histogram.EnlistmentsByDay | internal/repository/sqlite/user.go:301-359 | clamp(days, 1, 365) consecutive dates as text, ending today, each with the exact number of users of the project, or of all projects for the empty slug, created from midnight to midnight UTC |
| Histogram.CountExactly | internal/repository/sqlite/user.go:314-331 | the count of a day is the number of users of the slug, of all for the empty one, created in the 24 hours of that day |
| Histogram.StoredDate | internal/repository/sqlite/user.go:314-331 | the date part of a stored time is the date of its day |
| Histogram.CutoffSparesShownDays | internal/repository/sqlite/user.go:314-331 | the rolling cutoff never cuts into a day that is shown, even across midnight |
| Config.Validate | internal/config/config.go:84-112 | accepts exactly the definitions with a known default, unique hosts, parsing schedules and present templates, in any visiting order |
| Config.BuildHostMapping | internal/config/config.go:115-123 | builds the mapping in which a later definition overwrites |
| Config.OrderIndependentExactly | internal/config/config.go:115-123 | the mapping is the same for every map order if and only if no host is claimed twice |
| Config.ProjectResolver.Resolve | internal/handler/tenant.go:66-104 | header, then host, then default; a consistent resolver rejects if and only if the header names an unknown project |
| Config.ProjectResolver.Reload | internal/handler/tenant.go:54-62 | the cache is replaced by exactly the listed projects |
| Config.ProjectResolver.constructor | internal/handler/tenant.go:39-51 | the resolver starts with exactly the listed projects |
| Config.Start | internal/config/config.go:267-278 | start-up succeeds if and only if the default slug ("default" where missing) is defined, no host is claimed twice, set schedules with recipients parse and set templates exist; then the resolver is consistent, has exactly the defined projects, the header name ("X-Project-ID" where missing), the default slug, and points each host at the project that claims it |
| Database.Tx.Commit | internal/model/model.go:41-45 | a commit publishes all of the transaction's writes or none |
| Handlers.HandleAdd | internal/handler/waitinglist.go:62-147 | 400 if and only if a part of the request is missing, blank or without "@"; of the other answers, unless a call failed, 205 if and only if a user of that project and email has access, 409 if and only if such a user has none and some row is his, else 201; a 201 adds one row with weight 0 and, for an unknown login, one user without access, and changes nothing else; any other answer changes nothing; a 500 means some call failed |
| Handlers.AnswerMeans | internal/handler/waitinglist.go:113-129 | for every state of the schema: 205 stands for a user of the login with access, 409 for one without access who owns a row |
| Handlers.SignUpWrites | internal/handler/waitinglist.go:92-146 | the sign-up step answered 201 writes one row with weight 0 and the recorded time, for the user of the login if there is one and else for a new user without access and with empty audit columns |
| Handlers.HandleGrant | internal/handler/admin.go:199-260 | if and only if the user exists and no call up to the commit fails, the user gets access, time and source "admin" and loses the revoke columns, his rows go, and nothing else changes in any column or table; a 404 loses no row |
| Handlers.HandleRevoke | internal/handler/admin.go:266-321 | unless the statement itself fails, a trimmed reason of 1 to 500 bytes is stored with admin and time and access is taken, every other column, user, row and stamp staying as it was, even where the answer is a 500; otherwise nothing changes |
| Handlers.HandleDeleteWaitlist | internal/handler/admin.go:323-346 | exactly the named row goes, every other row, user and stamp staying, unless the statement itself fails; 204 and 404 tell which |
| Handlers.ReasonLimitExactly | internal/handler/admin.go:281-289 | the byte test and the documented limit in characters agree if and only if the trimmed reason is not within the one and beyond the other; always on ASCII |
| Handlers.AccentedReasonRefused | internal/handler/admin.go:286 | 251 to 500 accented letters fit the documented limit and are refused |
| Utf8.ByteLengthExactly | internal/handler/admin.go:286 | the byte length is at least the number of characters, and equal to it exactly on ASCII |
| Utf8.EncodeRoundTrip | internal/handler/admin.go:286 | the byte length is that of the UTF-8 form of section 3 of RFC 3629, which decodes back to the text |
| Text.TrimExactly | internal/handler/waitinglist.go:202-216 | trimming keeps exactly the part from the first to the last character that is no space, and a text is blank if and only if it has no such character |
| Process.ProcessProject | internal/waitlist/waitlist.go:46-117 | in terms of the project's own settings, for every pattern of failing calls: a disabled project or a failing call leaves the tables as they were; otherwise the rows taken, the access given and the stamp are those of `TurnTakes`, `TurnTakesEnough` and `TurnTakesOldest`, and the turn reports whether it took any row |
| TurnEffect.TurnTakes | internal/waitlist/waitlist.go:46-117 | with the batch size b and window w of the project, its own where set and else the global ones, a turn takes at most b rows, all of the project and each past created_at - weight * 1h + w at some reading of the loop, and only w after the stamp; exactly their owners get access, exactly the written columns change, and the stamp moves exactly if a row was taken |
| TurnEffect.TurnTakesEnough | internal/waitlist/waitlist.go:61-83 | past the cooldown a turn takes b rows, or at least every row past w when there are fewer |
| TurnEffect.TurnTakesOldest | internal/repository/sqlite/waitinglist.go:72-112 | with one reading for all entries, no row left behind in the project is strictly earlier in created_at - weight * 1h than one taken |
| Overrides.TickTakes | internal/waitlist/waitlist.go:46-117 | every atomic scheduler step of a run does all three |
| Overrides.ReadTakes | internal/waitlist/waitlist.go:46-83 | a batch read in a split run has at most b rows, all of the project and each past w, is read only w after the stamp, and is full or holds as many rows as are past w |
| Overrides.RunsKeepForce | internal/waitlist/waitlist.go:51-68 | over whole split runs the recorded batches of a project stay within b and at least w, cut to the storage resolution, apart |
| Overrides.SwitchedOffRuns | internal/waitlist/waitlist.go:47-49 | over whole split runs a project switched off, or not configured, gets no batch and no stamp |
| Process.TurnIsStep | internal/waitlist/waitlist.go:61-117 | a turn during which no entry ripens is the atomic scheduler step |
| Process.SelectRipe | internal/waitlist/waitlist.go:75-83 | the loop collects users and rows of the entries ripe when it reaches them, side by side, in order |
| Process.CheckAllProjects | internal/waitlist/waitlist.go:134-138 | one tick gives every project its turn in order, on what the turns before left, with its own clock readings; a turn with a failing call changes nothing and does not stop the next; every invariant is kept |
| Process.TickIsRun | internal/waitlist/waitlist.go:134-138 | when no entry ripens during its turn, a tick is the run of exactly the scheduler steps of the turns without a failing call |
| Repositories.GetByEmailTx | internal/repository/sqlite/user.go:105-121 | finds the one user of the login, or says there is none |
| Repositories.CreateTx | internal/repository/sqlite/user.go:73-92 | inserts a user without access unless the login is taken |
| Repositories.GrantAccessTx | internal/repository/sqlite/user.go:180-214 | gives each listed user that exists access, time and source and clears his revoke columns, every other column, user, row and stamp staying; a source other than "scheduler" and "admin" and no existing user are errors, an empty list is not |
| Repositories.RevokeAccess | internal/repository/sqlite/user.go:478-504 | sets the four revoke columns and no other, or refuses a blank reason or an unknown user; when the affected rows cannot be counted it fails with the revocation stored |
| Repositories.GetByID | internal/repository/sqlite/user.go:220-235 | the user of an identifier, or that there is none |
| Repositories.CountByAccess | internal/repository/sqlite/user.go:273-294 | the number of rows of the slug and of users of the slug with access, of all projects for the empty slug, in any state; their sum counts users once, except those who are both |
| Repositories.Add | internal/repository/sqlite/waitinglist.go:42-62 | one row per user, only for users that exist, with weight 0 and the current time |
| Repositories.OrderBy | internal/repository/sqlite/waitinglist.go:74-78 | every member once, in ascending order of the key, ties in any order |
| Repositories.OrderRows | internal/repository/sqlite/waitinglist.go:74-78 | the project's rows, each once, by weighted time, ties in any order |
| Repositories.GetWithOffsetLimit | internal/repository/sqlite/waitinglist.go:72-112 | one page of that listing, with the defaults of a missing offset or limit |
| Repositories.GetEnlistedSince | internal/repository/sqlite/waitinglist.go:118-142 | a row is listed if and only if it is in the table, of the project asked for and recorded later than the given time; each once, oldest first |
| Repositories.GetGrantedSince | internal/repository/sqlite/user.go:443-465 | a grant is listed if and only if it is the current one of a user of the project and recorded later than the given time; each once, oldest first |
| Repositories.DeleteByIDsTx | internal/repository/sqlite/waitinglist.go:237-251 | deletes exactly the listed rows; an empty list needs no query |
| Repositories.DeleteByID | internal/repository/sqlite/waitinglist.go:269-283 | deletes exactly one row, or says it is not there; when the affected rows cannot be counted it fails with the row gone |
| Repositories.DeleteByUserIDTx | internal/repository/sqlite/waitinglist.go:296-302 | deletes the user's row; having none is no error |
| Repositories.GetLastSuccess | internal/repository/sqlite/scheduler.go:27-44 | the stored stamp, or none |
| Repositories.UpdateLastSuccess | internal/repository/sqlite/scheduler.go:49-60 | writes one stamp and no other |

## Left out

- HTTP decoding, JSON, logging, basic auth, the health check, the embedded admin UI, the list endpoints and their paging: nothing inductive to state.
- SMTP, templates and notification mails: a send is a call that succeeds or fails; access-granted mails change no stored state.
- Cron and duration parsing, `net.SplitHostPort`, `ClientIP` and the file system are parameters: the schedules that parse, the files that exist, the host without its port.
- UUIDs: identifiers are drawn fresh; the split and digest models say they are never drawn twice.
- SQL engines: a statement is a function on the tables. `buildInPlaceholders` only shapes query text.
- The clock: readings never go back, and one recorded time serves a transaction (SQLite may record two adjacent seconds).
- FetchThenFilter: one clock reading for the whole loop, because with a moving clock the claim is false (`TurnFairness.LongTurnSkips`); `SplitScheduler.ChosenIsBatch` and `TurnFairness.FairExactly` say exactly how much of it is left.
- RipeIsPrefix: one clock reading, for the same reason.
- Atomic steps and runs: one clock reading per scheduler run; the split model and `Process.dfy` have one per entry.
- One scheduler process and no overlapping digest runs of one project, as the cooldown and the digest stamp assume.
- A commit whose outcome the client cannot know: a failing commit changes nothing.
- Postgres: its resolution is covered by `res`; races between concurrent sign-up transactions, and time columns without a time zone, are not.
- Negative batch sizes and weights, and changes of weight, which no code path makes.
- ProcessProject: does not model the global scheduler switch, which keeps the process from starting, nor the reading of settings from files.
- EnlistmentsByDay: for users created, and days shown, in the years 0000 to 9999 only.
- HandleGrant: does not claim that a 500 leaves the tables alone, because the fetch after the commit can fail; what is stored is stated instead.
- Resolve: does not model the lock around the project cache.
